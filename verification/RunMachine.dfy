/** One updater run, command by command: what it may do next given how the
    outside world answered so far, and what its outcome word means. */
module RunMachine {
  import opened Base
  import opened Approval
  import Lockfile
  import Versions
  import Text

  type ImageSet = Lockfile.ImageSet
  type LockState = Lockfile.LockState

  // ---- configuration and what the outside world reports ------------------

  datatype BackupMode = Verify | Create | Off

  /** How the lock file is read and written; `LOCK_TEXT` below is the real one. */
  datatype LockFormat = LockFormat(read: string -> Result<LockState, Lockfile.LockError>,
                                   render: (LockState, string) -> Result<string, Lockfile.LockError>)

  const LOCK_TEXT := LockFormat(Lockfile.Read, Lockfile.Render)

  datatype Config = Config(format: LockFormat, insecure: bool, requireAttestations: bool, attestationTypes: seq<string>,
                           backupMode: BackupMode, workerPing: bool, selfcheck: bool, healthInterval: int)

  /** A request about to run, the policy it must satisfy, the run's id, and
      whether there is anyone at a terminal to ask. */
  datatype Call = Call(request: Request, policy: Policy, runId: string, prompt: bool)

  /** `uuid4().hex[:12]` */
  predicate IsRunId(id: string) {
    |id| == 12 && forall i :: 0 <= i < |id| ==> '0' <= id[i] <= '9' || 'a' <= id[i] <= 'f'
  }

  datatype Release = Release(tag: string, version: string, backendRef: string, frontendRef: string,
                             dbRevision: Option<string>, minDbRevision: Option<string>, frontendVersion: Option<string>)

  /** `/api/health/quick` */
  datatype Health = Health(version: Option<string>, dbRevision: Option<string>)

  /** Every answer one health round can get. */
  datatype Round = Round(quick: Option<Health>, root: int, services: int, ping: bool, backendCheck: bool,
      workerCheck: bool)

  /** The image each service runs, if it runs. */
  datatype Running = Running(backend: Option<string>, worker: Option<string>, frontend: Option<string>)

  function AllOn(images: ImageSet): Running {
    Running(Some(images.backend), Some(images.backend), Some(images.frontend))
  }

  datatype World = World(running: Running, db: string, lock: string)

  predicate Truthy(s: Option<string>) {
    s.Some? && s.value != ""
  }

  // ---- the decisions of steps.py -----------------------------------------

  function ImagesFor(rel: Release): ImageSet {
    Lockfile.ImageSet(rel.tag, rel.backendRef, rel.frontendRef, Some(rel.version))
  }

  predicate Pinned(ref: string) {
    Text.Occurs("@sha256:", ref)
  }

  /** What `ReleaseSource.resolve` has made sure of about an answer for `tag`:
      it carries that tag, its labels name that release, and both its
      references are pinned. */
  predicate Fits(rel: Release, tag: string) {
    && ValidTag(tag) && rel.tag == tag
    && rel.version != "" && Versions.Norm(rel.version) == Versions.Norm(tag)
    && (Truthy(rel.frontendVersion) ==> Versions.Norm(rel.frontendVersion.value) == Versions.Norm(tag))
    && Pinned(rel.backendRef) && Pinned(rel.frontendRef)
  }

  /** The sentence beside a compatibility verdict, with what it quotes. */
  datatype Reason =
    | NotReached
    | NoMinimum(reported: Option<string>)
    | Outside(observed: string, min: string, db: Option<string>)
    | NoneReported
    | Inside(observed: string, min: string, db: Option<string>)

  /** `compatibility`: membership of the window's two ends; unreachable fails. */
  function Compatibility(db: Option<string>, min: Option<string>, health: Option<Health>): (r: (bool, Reason))
    ensures r.0 <==> health.Some? && !r.1.Outside?
  {
    if health.None? then (false, NotReached)
    else
      var observed := health.value.dbRevision;
      if !Truthy(min) then (true, NoMinimum(observed))
      else if Truthy(observed) && observed != min && observed != db then (false, Outside(observed.value, min.value, db))
      else if !Truthy(observed) then (true, NoneReported)
      else (true, Inside(observed.value, min.value, db))
  }

  predicate Compatible(rel: Release, health: Option<Health>) {
    Compatibility(rel.dbRevision, rel.minDbRevision, health).0
  }

  predicate NeedsMigration(rel: Release, health: Option<Health>) {
    !Truthy(rel.dbRevision) || health.None? || health.value.dbRevision != rel.dbRevision
  }

  predicate VersionMismatch(rel: Release) {
    Truthy(rel.frontendVersion) && rel.version != "" && rel.frontendVersion.value != rel.version
  }

  /** What `verify_all` asks for, in order. */
  function ToVerify(cfg: Config, images: ImageSet): seq<(string, string)> {
    if cfg.insecure then []
    else [("signature", images.backend), ("signature", images.frontend)]
         + if cfg.requireAttestations then Attestations(images.backend, cfg.attestationTypes)
                                           + Attestations(images.frontend, cfg.attestationTypes) else []
  }

  function Attestations(ref: string, types: seq<string>): seq<(string, string)> {
    seq(|types|, i requires 0 <= i < |types| => ("attestation:" + types[i], ref))
  }

  /** The checks made from outside the containers. */
  predicate FrontServing(version: string, db: Option<string>, r: Round) {
    && r.quick.Some?
    && (version != "" ==>
       r.quick.value.version.Some? && Versions.Norm(r.quick.value.version.value) == Versions.Norm(version))
    && (Truthy(db) ==> r.quick.value.dbRevision == db)
    && r.root == 200 && r.services == 200
  }

  /** Every check of `_health_round`, passed in the same round. */
  predicate Serving(cfg: Config, version: string, db: Option<string>, r: Round) {
    && FrontServing(version, db, r)
    && (cfg.workerPing ==> r.ping)
    && (cfg.selfcheck ==> r.backendCheck && r.workerCheck)
  }

  predicate BackupGood(cfg: Config, exit: int, reportOk: bool, verified: bool) {
    exit == 0 && reportOk && (cfg.backupMode == Verify ==> verified)
  }

  const GATE_BLOCKED := 2
  const GATE_NO_BACKUP := 3

  // ---- commands, answers and their effect --------------------------------

  /** A command the run issued together with the answer it got. */
  datatype Event =
    | ReadLock(text: string)
    | Resolve(release: Option<Release>)
    | Quick(health: Option<Health>)
    | Verdict(kind: string, ref: string, ok: bool)
    | Preflight(files: bool, disk: bool)
    | Stamp(version: Option<string>)
    | Confirm(yes: bool)
    | Backup(images: ImageSet, exit: int, reportOk: bool, verified: bool)
    | Pull(images: ImageSet, ok: bool)
    | Migrate(images: ImageSet, destructive: bool, exit: int, db: string)
    | Up(images: ImageSet, ok: bool, after: Running, db: string)
    | RestartAll(images: ImageSet, ok: bool, after: Running, db: string)
    | CheckHealth(round: Round, late: bool)
    | SleepRaised
    | Unwritten
    | Rename(text: string)
    | SyncDir(ok: bool)

  /** The migrator's exit codes 2 and 3 mean nothing was applied; any other may
      have changed the schema. A failed `up` can leave any mixture running, a
      `restart` keeps the image of every service that runs. Every container that
      starts runs its own migrator first, so either may move the schema. */
  function Do(w: World, e: Event): World {
    match e
    case Migrate(_, _, exit, db) => if exit == GATE_BLOCKED || exit == GATE_NO_BACKUP then w else w.(db := db)
    case Up(images, ok, after, db) => w.(running := if ok then AllOn(images) else after, db := db)
    case RestartAll(_, ok, after, db) => w.(running := Restarted(w.running, ok, after), db := db)
    case Rename(text) => w.(lock := text)
    case _ => w
  }

  /** A restarted container keeps its image, or stays down if that failed; one
      that was down may come up on whatever image it was made from. */
  function Restarted(before: Running, ok: bool, after: Running): Running {
    Running(Revived(before.backend, ok, after.backend), Revived(before.worker, ok, after.worker),
            Revived(before.frontend, ok, after.frontend))
  }

  function Revived(before: Option<string>, ok: bool, after: Option<string>): Option<string> {
    if before.None? then after else if ok || after.Some? then before else None
  }

  function DoAll(w: World, es: seq<Event>): World {
    if es == [] then w else Do(DoAll(w, es[..|es| - 1]), es[|es| - 1])
  }

  // ---- the run -----------------------------------------------------------

  datatype Outcome = Succeeded | Noop | Refused | NeedsApproval | NotConfirmed | MigrationFailed | RolledBack
                   | RollbackFailed | Error | LockFileRaised | OsRaised | SleepFailed

  /** What the run has settled on once it knows where it is going. */
  datatype Job = Job(call: Call, st: LockState, target: ImageSet, version: string, db: Option<string>,
                     release: Option<Release>, health: Option<Health>)

  datatype Pc =
    | Reading(call: Call)
    | Resolving(call: Call, st: LockState)
    | Probing(call: Call, st: LockState, release: Release)
    | Verifying(job: Job, todo: seq<(string, string)>, passed: bool)
    | ProbingBack(job: Job, passed: bool)
    | Confirming(job: Job)
    | BackingUp(job: Job)
    | Pulling(job: Job)
    | Migrating(job: Job)
    | Recreating(job: Job)
    | Restarting(job: Job)
    | Healing(job: Job)
    | Committing(job: Job)
    | Syncing(job: Job)
    | Undoing(job: Job)
    | UndoHealing(job: Job)
    | Done(outcome: Outcome, about: Option<Job>)

  function NewState(job: Job): LockState {
    Lockfile.LockState(job.target, Some(job.st.current), job.st.extra)
  }

  function Header(job: Job): string {
    if job.call.request.action == Rollback then "rollback to " + job.target.version + " via run " + job.call.runId
    else job.call.request.tag + " via run " + job.call.runId
  }

  function Render(cfg: Config, job: Job): Result<string, Lockfile.LockError> {
    cfg.format.render(NewState(job), Header(job))
  }

  function Approvals(call: Call, confirmed: bool): seq<string> {
    if confirmed && call.request.approvals == [] then [call.request.requestedBy] else call.request.approvals
  }

  /** What follows from the lock's text. */
  function AfterRead(cfg: Config, call: Call, text: string): Pc {
    match cfg.format.read(text)
    case Err(_) => Done(LockFileRaised, None)
    case Ok(st) =>
      match call.request.action
      case Upgrade => Resolving(call, st)
      case Restart => Confirming(Job(call, st, st.current, st.current.ExpectedVersion(), None, None, None))
      case Rollback =>
        if st.previous.None? then Done(Refused, None)
        else
          var target := st.previous.value;
          Verifying(Job(call, st, target, target.ExpectedVersion(), None, None, None), ToVerify(cfg, target), true)
  }

  /** After a successful resolve: same images, an older version, or values the
      lock cannot hold stop the run before it has touched anything. */
  function AfterResolve(cfg: Config, call: Call, st: LockState, rel: Release): Pc {
    var target := ImagesFor(rel);
    if target.SameImages(st.current) then Done(Noop, None)
    else if !call.request.allowDowngrade && Versions.IsDowngrade(rel.version, st.current.ExpectedVersion())
        then Done(Refused, None)
    else if cfg.format.render(Lockfile.LockState(target, Some(st.current), st.extra), "").Err? then Done(Refused, None)
    else Probing(call, st, rel)
  }

  predicate PreflightPasses(cfg: Config, job: Job, files: bool, disk: bool, passed: bool) {
    && files && disk && passed && job.release.Some?
    && (cfg.insecure || (Pinned(job.target.backend) && Pinned(job.target.frontend)))
    && !VersionMismatch(job.release.value)
    && Compatible(job.release.value, job.health)
  }

  function AfterConfirm(cfg: Config, job: Job): Pc {
    match job.call.request.action
    case Restart => Restarting(job)
    case Rollback => Pulling(job)
    case Upgrade => if cfg.backupMode == Off then Pulling(job) else BackingUp(job)
  }

  function AfterPull(job: Job): Pc {
    if job.release.Some? && NeedsMigration(job.release.value, job.health) then Migrating(job) else Recreating(job)
  }

  // What each answer leads to, point by point; None for any other command.

  function OnReading(cfg: Config, call: Call, e: Event): Option<Pc> {
    if e.ReadLock? then Some(AfterRead(cfg, call, e.text)) else None
  }

  function OnResolving(cfg: Config, call: Call, st: LockState, e: Event): Option<Pc> {
    if !e.Resolve? || (e.release.Some? && !Fits(e.release.value, call.request.tag)) then None
    else if e.release.None? then Some(Done(Refused, None))
    else Some(AfterResolve(cfg, call, st, e.release.value))
  }

  function OnProbing(cfg: Config, call: Call, st: LockState, rel: Release, e: Event): Option<Pc> {
    if !e.Quick? then None
    else
      var target := ImagesFor(rel);
      Some(Verifying(Job(call, st, target, rel.version, rel.dbRevision, Some(rel), e.health), ToVerify(cfg, target),
          true))
  }

  /** A reference that is not pinned fails its verdict before cosign is asked. */
  function OnVerifying(cfg: Config, job: Job, todo: seq<(string, string)>, passed: bool, e: Event): Option<Pc> {
    if todo != [] then
      if e.Verdict? && (e.kind, e.ref) == todo[0] && (e.ok ==> Pinned(e.ref))
          then Some(Verifying(job, todo[1..], passed && e.ok))
      else None
    else if job.release.Some? then
      if e.Preflight? then
        Some(if PreflightPasses(cfg, job, e.files, e.disk, passed) then Confirming(job) else Done(Refused, Some(job)))
      else None
    else if e.Quick? then Some(ProbingBack(job.(health := e.health), passed)) else None
  }

  function OnProbingBack(job: Job, passed: bool, e: Event): Option<Pc> {
    if !e.Stamp? then None
    else if !passed then Some(Done(Refused, Some(job)))
    else if !Truthy(job.target.appVersion) && Truthy(e.version) then Some(Confirming(job.(version := e.version.value)))
    else Some(Confirming(job))
  }

  function OnConfirming(cfg: Config, job: Job, e: Event): Option<Pc> {
    if !e.Confirm? || (e.yes && !job.call.prompt) then None
    else if Approved(job.call.policy, job.call.request.requestedBy, Approvals(job.call, e.yes))
        then Some(AfterConfirm(cfg, job))
    else Some(Done(NotConfirmed, Some(job)))
  }

  function OnBackingUp(cfg: Config, job: Job, e: Event): Option<Pc> {
    if !e.Backup? || e.images != job.st.current then None
    else Some(if BackupGood(cfg, e.exit, e.reportOk, e.verified) then Pulling(job) else Done(Refused, Some(job)))
  }

  function OnPulling(job: Job, e: Event): Option<Pc> {
    if !e.Pull? || e.images != job.target then None
    else Some(if e.ok then AfterPull(job) else Done(Refused, Some(job)))
  }

  function OnMigrating(job: Job, e: Event): Option<Pc> {
    if !e.Migrate? || e.images != job.target || e.destructive != job.call.request.allowDestructive then None
    else Some(if e.exit == GATE_BLOCKED then Done(NeedsApproval, Some(job))
              else if e.exit != 0 then Done(MigrationFailed, Some(job)) else Recreating(job))
  }

  function OnRecreating(job: Job, e: Event): Option<Pc> {
    if !e.Up? || e.images != job.target then None else Some(if e.ok then Healing(job) else Undoing(job))
  }

  function OnRestarting(job: Job, e: Event): Option<Pc> {
    if !e.RestartAll? || e.images != job.target then None
        else Some(if e.ok then Healing(job) else Done(Error, Some(job)))
  }

  /** Sleeping between two rounds raises when the interval is negative. */
  function OnSleep(cfg: Config, job: Job): Option<Pc> {
    if cfg.healthInterval < 0 then Some(Done(SleepFailed, Some(job))) else None
  }

  function OnHealing(cfg: Config, job: Job, e: Event): Option<Pc> {
    if e.SleepRaised? then OnSleep(cfg, job)
    else if !e.CheckHealth? then None
    else if Serving(cfg, job.version, job.db, e.round) then
      Some(if job.call.request.action == Restart then Done(Succeeded, Some(job)) else Committing(job))
    else if !e.late then Some(Healing(job))
    else Some(if job.call.request.action == Restart then Done(Error, Some(job)) else Undoing(job))
  }

  function OnCommitting(cfg: Config, job: Job, e: Event): Option<Pc> {
    if e.Rename? && Render(cfg, job) == Ok(e.text) then Some(Syncing(job))
    else if e.Unwritten? then
      Some(Done(if job.call.request.action == Upgrade then Error
                else if Render(cfg, job).Err? then LockFileRaised else OsRaised, Some(job)))
    else None
  }

  function OnSyncing(job: Job, e: Event): Option<Pc> {
    if !e.SyncDir? then None
    else if e.ok then Some(Done(Succeeded, Some(job)))
    else Some(Done(if job.call.request.action == Upgrade then Error else OsRaised, Some(job)))
  }

  function OnUndoing(job: Job, e: Event): Option<Pc> {
    if !e.Up? || e.images != job.st.current then None
    else Some(if e.ok then UndoHealing(job) else Done(RollbackFailed, Some(job)))
  }

  function OnUndoHealing(cfg: Config, job: Job, e: Event): Option<Pc> {
    if e.SleepRaised? then OnSleep(cfg, job)
    else if !e.CheckHealth? then None
    else if Serving(cfg, job.st.current.ExpectedVersion(), None, e.round) then Some(Done(RolledBack, Some(job)))
    else if e.late then Some(Done(RollbackFailed, Some(job)))
    else Some(UndoHealing(job))
  }

  /** The one command the run may issue next, for each answer it may get. */
  function Step(cfg: Config, pc: Pc, e: Event): Option<Pc> {
    match pc
    case Reading(call) => OnReading(cfg, call, e)
    case Resolving(call, st) => OnResolving(cfg, call, st, e)
    case Probing(call, st, rel) => OnProbing(cfg, call, st, rel, e)
    case Verifying(job, todo, passed) => OnVerifying(cfg, job, todo, passed, e)
    case ProbingBack(job, passed) => OnProbingBack(job, passed, e)
    case Confirming(job) => OnConfirming(cfg, job, e)
    case BackingUp(job) => OnBackingUp(cfg, job, e)
    case Pulling(job) => OnPulling(job, e)
    case Migrating(job) => OnMigrating(job, e)
    case Recreating(job) => OnRecreating(job, e)
    case Restarting(job) => OnRestarting(job, e)
    case Healing(job) => OnHealing(cfg, job, e)
    case Committing(job) => OnCommitting(cfg, job, e)
    case Syncing(job) => OnSyncing(job, e)
    case Undoing(job) => OnUndoing(job, e)
    case UndoHealing(job) => OnUndoHealing(cfg, job, e)
    case Done(_, _) => None
  }

  function Steps(cfg: Config, pc: Pc, es: seq<Event>): Option<Pc> {
    if es == [] then Some(pc)
    else
      match Steps(cfg, pc, es[..|es| - 1])
      case None => None
      case Some(p) => Step(cfg, p, es[|es| - 1])
  }
}
