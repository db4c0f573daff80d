/** A run told by its commands and their answers alone: which command is due
    after which, which answers let the run go on, and which word the last one
    leads to. None of it mentions the run machine; all of it holds of every run. */
module RunStory {
  import opened Base
  import opened Approval
  import opened RunMachine
  import opened RunOrder
  import opened RunProperties
  import opened RunWords
  import Lockfile
  import Versions

  // ---- what the commands so far have told ----------------------------------

  /** The release the tag resolved to. */
  function Offer(es: seq<Event>): Option<Release> {
    if |es| > 1 && es[1].Resolve? then es[1].release else None
  }

  /** The health reported before an upgrade. */
  function Reported(es: seq<Event>): Option<Health> {
    if |es| > 2 && es[2].Quick? then es[2].health else None
  }

  /** The version last read off an image's stamp. */
  function StampIn(es: seq<Event>): Option<string> {
    if es == [] then None
    else if es[|es| - 1].Stamp? then es[|es| - 1].version
    else StampIn(es[..|es| - 1])
  }

  /** How many times services have been recreated. */
  function Ups(es: seq<Event>): nat {
    if es == [] then 0 else Ups(es[..|es| - 1]) + if es[|es| - 1].Up? then 1 else 0
  }

  function Verdicts(es: seq<Event>): nat {
    if es == [] then 0 else Verdicts(es[..|es| - 1]) + if es[|es| - 1].Verdict? then 1 else 0
  }

  predicate AllSigned(es: seq<Event>) {
    forall i :: 0 <= i < |es| && es[i].Verdict? ==> es[i].ok
  }

  /** The images the run is to bring up. */
  function Target(call: Call, st: LockState, es: seq<Event>): ImageSet {
    match call.request.action
    case Upgrade =>
      if Offer(es).None? then st.current
      else
        var rel := Offer(es).value;
        Lockfile.ImageSet(call.request.tag, rel.backendRef, rel.frontendRef, Some(rel.version))
    case Rollback => if st.previous.Some? then st.previous.value else st.current
    case Restart => st.current
  }

  /** The version those images must report: of an upgrade the release's; of a
      rollback the recorded one, or else the stamp's, or else the tag. */
  function Wanted(call: Call, st: LockState, es: seq<Event>): string {
    var target := Target(call, st, es);
    if call.request.action == Upgrade && Offer(es).Some? then Offer(es).value.version
    else if call.request.action == Rollback && !Given(target.appVersion) && Given(StampIn(es)) then StampIn(es).value
    else VersionOf(target)
  }

  /** Only an upgrade knows which revision to find. */
  function WantedDb(call: Call, es: seq<Event>): Option<string> {
    if call.request.action == Upgrade && Offer(es).Some? then Offer(es).value.dbRevision else None
  }

  // ---- the checks, in their own fields -------------------------------------

  /** The release can replace what runs: other images, no older version unless
      that is allowed, and values a lock can hold. */
  predicate Replaces(cfg: Config, call: Call, st: LockState, rel: Release) {
    && (rel.backendRef != st.current.backend || rel.frontendRef != st.current.frontend)
    && (call.request.allowDowngrade || !Versions.IsDowngrade(rel.version, VersionOf(st.current)))
    && var target := Lockfile.ImageSet(rel.tag, rel.backendRef, rel.frontendRef, Some(rel.version));
       cfg.format.render(Lockfile.LockState(target, Some(st.current), st.extra), "").Ok?
  }

  /** The `k`-th question put to cosign: both signatures, and where attestations
      are required every type for the backend and then for the frontend. */
  function Question(cfg: Config, images: ImageSet, k: nat): Option<(string, string)> {
    var n := |cfg.attestationTypes|;
    if cfg.insecure then None
    else if k == 0 then Some(("signature", images.backend))
    else if k == 1 then Some(("signature", images.frontend))
    else if !cfg.requireAttestations then None
    else if k < 2 + n then Some(("attestation:" + cfg.attestationTypes[k - 2], images.backend))
    else if k < 2 + n + n then Some(("attestation:" + cfg.attestationTypes[k - 2 - n], images.frontend))
    else None
  }

  /** The schema is already where the release wants it. */
  predicate SchemaIsThere(es: seq<Event>) {
    && Offer(es).Some? && Given(Offer(es).value.dbRevision) && Reported(es).Some?
    && Reported(es).value.dbRevision == Offer(es).value.dbRevision
  }

  // ---- which command is due ------------------------------------------------

  predicate UpOf(images: ImageSet, e: Event) {
    e.Up? && e.images == images
  }

  predicate RoundDue(cfg: Config, e: Event) {
    e.CheckHealth? || (e.SleepRaised? && cfg.healthInterval < 0)
  }

  /** The next question for cosign; once all are asked, the rest of the preflight
      or, in a rollback, the health. An unpinned image never passes. */
  predicate CheckDue(cfg: Config, call: Call, st: LockState, es: seq<Event>, e: Event) {
    var q := Question(cfg, Target(call, st, es), Verdicts(es));
    if q.Some? then e.Verdict? && (e.kind, e.ref) == q.value && (e.ok ==> Pinned(e.ref))
    else if call.request.action == Upgrade then e.Preflight? else e.Quick?
  }

  predicate PullDue(call: Call, st: LockState, es: seq<Event>, e: Event) {
    e.Pull? && e.images == Target(call, st, es)
  }

  /** `e` is the command due after `es`, whatever its answer. */
  ghost predicate Due(cfg: Config, call: Call, st: LockState, es: seq<Event>, e: Event) {
    if es == [] then e.ReadLock?
    else
      var action := call.request.action;
      match es[|es| - 1]
      case ReadLock(_) =>
        if action == Upgrade then e.Resolve? else if action == Restart then e.Confirm? && (e.yes ==> call.prompt)
        else CheckDue(cfg, call, st, es, e)
      case Resolve(_) => e.Quick?
      case Quick(_) => if action == Rollback then e.Stamp? else CheckDue(cfg, call, st, es, e)
      case Verdict(_, _, _) => CheckDue(cfg, call, st, es, e)
      case Preflight(_, _) => e.Confirm? && (e.yes ==> call.prompt)
      case Stamp(_) => e.Confirm? && (e.yes ==> call.prompt)
      case Confirm(_) =>
        if action == Restart then e.RestartAll? && e.images == st.current
        else if action == Upgrade && cfg.backupMode != Off then e.Backup? && e.images == st.current
        else PullDue(call, st, es, e)
      case Backup(_, _, _, _) => PullDue(call, st, es, e)
      case Pull(_, _) =>
        if action == Upgrade && !SchemaIsThere(es) then
          e.Migrate? && e.images == Target(call, st, es) && e.destructive == call.request.allowDestructive
        else UpOf(Target(call, st, es), e)
      case Migrate(_, _, _, _) => UpOf(Target(call, st, es), e)
      case Up(_, ok, _, _) => if ok then RoundDue(cfg, e) else UpOf(st.current, e)
      case RestartAll(_, _, _, _) => RoundDue(cfg, e)
      case CheckHealth(round, late) =>
        if Ups(es) == 1 && Passes(cfg, Wanted(call, st, es), WantedDb(call, es), round)
        then Written(cfg, call, st, es, e)
        else if late then UpOf(st.current, e) else RoundDue(cfg, e)
      case Rename(_) => e.SyncDir?
      case _ => false
  }

  /** The lock file is replaced by one that names the new images, with those
      replaced as the way back, or that fails. */
  ghost predicate Written(cfg: Config, call: Call, st: LockState, es: seq<Event>, e: Event) {
    e.Unwritten? || (e.Rename? && NewText(cfg, call, st, es) == Ok(e.text))
  }

  function NewText(cfg: Config, call: Call, st: LockState, es: seq<Event>): Result<string, Lockfile.LockError> {
    var target := Target(call, st, es);
    cfg.format.render(Lockfile.LockState(target, Some(st.current), st.extra),
                      if call.request.action == Rollback then "rollback to " + target.version + " via run " + call.runId
                      else call.request.tag + " via run " + call.runId)
  }

  // ---- which answers let the run go on -------------------------------------

  /** After `es`, the answer in `e` does not end the run. */
  ghost predicate GoesOn(cfg: Config, call: Call, st: LockState, es: seq<Event>, e: Event) {
    var action := call.request.action;
    match e
    case ReadLock(_) => action == Rollback ==> st.previous.Some?
    case Resolve(release) => release.Some? && Replaces(cfg, call, st, release.value)
    case Preflight(files, disk) =>
      && files && disk && AllSigned(es)
      && Offer(es).Some? && Ready(cfg, Target(call, st, es), Offer(es).value, Reported(es))
    case Stamp(_) => AllSigned(es)
    case Confirm(yes) => Consents(call, yes)
    case Backup(_, exit, reportOk, verified) => exit == 0 && reportOk && (cfg.backupMode == Verify ==> verified)
    case Pull(_, ok) => ok
    case Migrate(_, _, exit, _) => exit == 0
    case Up(_, ok, _, _) => ok || Ups(es) == 0
    case RestartAll(_, ok, _, _) => ok
    case CheckHealth(round, late) => Ups(es) == 1 || (!late && !Fine(cfg, call, st, es, round))
    case Unwritten => false
    case SyncDir(_) => false
    case SleepRaised => false
    case _ => true
  }

  /** A round that finds the images that should be running now: the old ones
      once they have been brought back, and before that the new. */
  predicate Fine(cfg: Config, call: Call, st: LockState, es: seq<Event>, round: Round) {
    if Ups(es) > 1 then Passes(cfg, VersionOf(st.current), None, round)
    else Passes(cfg, Wanted(call, st, es), WantedDb(call, es), round)
  }

  // ---- which word the last answer leads to ---------------------------------

  /** The word for a run that `e` ended. */
  function Word(cfg: Config, call: Call, st: LockState, es: seq<Event>, e: Event): Outcome {
    var action := call.request.action;
    match e
    case Resolve(release) =>
      if release.Some? && release.value.backendRef == st.current.backend
         && release.value.frontendRef == st.current.frontend
      then Noop else Refused
    case Confirm(_) => NotConfirmed
    case Migrate(_, _, exit, _) => if exit == 2 then NeedsApproval else MigrationFailed
    case Up(_, _, _, _) => RollbackFailed
    case RestartAll(_, _, _, _) => Error
    case CheckHealth(round, _) =>
      if action == Restart then if Fine(cfg, call, st, es, round) then Succeeded else Error
      else if Fine(cfg, call, st, es, round) then RolledBack else RollbackFailed
    case Unwritten =>
      if action == Upgrade then Error else if NewText(cfg, call, st, es).Err? then LockFileRaised else OsRaised
    case SyncDir(ok) => if ok then Succeeded else if action == Upgrade then Error else OsRaised
    case SleepRaised => SleepFailed
    case _ => Refused
  }

  // ---- what the machine knows at each point --------------------------------

  /** The job is the one the commands so far describe. */
  predicate Known(call: Call, st: LockState, es: seq<Event>, job: Job) {
    && job.call == call && job.st == st && es != [] && job.target == Target(call, st, es)
    && job.version == Wanted(call, st, es) && job.db == WantedDb(call, es)
    && if call.request.action == Upgrade then
         |es| > 2 && es[1].Resolve? && es[2].Quick? && job.release == Offer(es) && job.release.Some?
         && job.health == Reported(es) && job.release.value.tag == call.request.tag
       else job.release == None && Offer(es) == None
  }

  function Last(es: seq<Event>): Event
    requires es != []
  {
    es[|es| - 1]
  }

  /** No check and no recreate yet. */
  predicate Fresh(es: seq<Event>) {
    Ups(es) == 0 && Verdicts(es) == 0 && StampIn(es) == None && AllSigned(es)
  }

  ghost predicate Knows(cfg: Config, call: Call, st: LockState, es: seq<Event>, pc: Pc) {
    var action := call.request.action;
    match pc
    case Reading(c) => c == call && es == []
    case Resolving(c, s) => c == call && s == st && action == Upgrade && |es| == 1 && es[0].ReadLock? && Fresh(es)
    case Probing(c, s, rel) =>
      && c == call && s == st && action == Upgrade && |es| == 2 && es[0].ReadLock?
      && es[1] == Resolve(Some(rel)) && rel.tag == call.request.tag && Fresh(es)
    case Verifying(job, todo, passed) =>
      && Known(call, st, es, job) && action != Restart && Ups(es) == 0 && passed == AllSigned(es) && StampIn(es) == None
      && Verdicts(es) <= |ToVerify(cfg, job.target)| && todo == ToVerify(cfg, job.target)[Verdicts(es)..]
      && (Last(es).Verdict? || (if action == Upgrade then Last(es).Quick? else Last(es).ReadLock?))
      && (action == Rollback ==> st.previous.Some?)
    case ProbingBack(job, passed) =>
      Known(call, st, es, job) && action == Rollback && Ups(es) == 0 && passed == AllSigned(es) && Last(es).Quick?
      && StampIn(es) == None
    case Confirming(job) =>
      && Known(call, st, es, job) && Ups(es) == 0
      && (if action == Upgrade then Last(es).Preflight?
          else if action == Rollback then Last(es).Stamp? else Last(es).ReadLock?)
    case BackingUp(job) =>
      && Known(call, st, es, job) && Ups(es) == 0 && action == Upgrade && cfg.backupMode != Off
      && Last(es).Confirm?
    case Pulling(job) =>
      && Known(call, st, es, job) && Ups(es) == 0 && action != Restart
      && (Last(es).Backup? || (Last(es).Confirm? && (action == Rollback || cfg.backupMode == Off)))
    case Migrating(job) =>
      Known(call, st, es, job) && Ups(es) == 0 && action == Upgrade && Last(es).Pull? && !SchemaIsThere(es)
    case Recreating(job) =>
      && Known(call, st, es, job) && Ups(es) == 0 && action != Restart
      && (Last(es).Migrate? || (Last(es).Pull? && (action == Rollback || SchemaIsThere(es))))
    case Restarting(job) => Known(call, st, es, job) && Ups(es) == 0 && action == Restart && Last(es).Confirm?
    case Healing(job) =>
      && Known(call, st, es, job) && Ups(es) == (if action == Restart then 0 else 1)
      && Waiting(cfg, call, st, es)
    case Committing(job) =>
      && Known(call, st, es, job) && Ups(es) == 1 && action != Restart && Last(es).CheckHealth?
      && Passes(cfg, Wanted(call, st, es), WantedDb(call, es), Last(es).round)
    case Syncing(job) => Known(call, st, es, job) && Last(es).Rename? && action != Restart
    case Undoing(job) =>
      && Known(call, st, es, job) && Ups(es) == 1 && action != Restart
      && ((Last(es).Up? && !Last(es).ok)
          || (Last(es).CheckHealth? && Last(es).late
              && !Passes(cfg, Wanted(call, st, es), WantedDb(call, es), Last(es).round)))
    case UndoHealing(job) => Known(call, st, es, job) && Ups(es) == 2 && action != Restart && Waiting(cfg, call, st, es)
    case Done(_, _) => true
  }

  /** A health round is due. */
  ghost predicate Waiting(cfg: Config, call: Call, st: LockState, es: seq<Event>) {
    es != [] && (match Last(es)
      case Up(_, ok, _, _) => ok
      case RestartAll(_, ok, _, _) => ok
      case CheckHealth(round, late) =>
        !late && (Ups(es) == 1 ==> !Passes(cfg, Wanted(call, st, es), WantedDb(call, es), round))
      case _ => false)
  }

  // ---- the machine's decisions in these words ------------------------------

  lemma QuestionsInOrder(cfg: Config, images: ImageSet, k: nat)
    requires k <= |ToVerify(cfg, images)|
    ensures Question(cfg, images, k) == if k < |ToVerify(cfg, images)| then Some(ToVerify(cfg, images)[k]) else None
  {
  }

  lemma NewTextIs(cfg: Config, call: Call, st: LockState, es: seq<Event>, job: Job)
    requires Known(call, st, es, job) && call.request.action != Restart
    ensures Render(cfg, job) == NewText(cfg, call, st, es)
  {
  }

  /** One more command, and what it changes of the story so far. */
  lemma Grown(call: Call, st: LockState, es: seq<Event>, e: Event)
    ensures var more := es + [e];
      && |more| == |es| + 1 && Last(more) == e && more[..|es|] == es
      && Ups(more) == Ups(es) + (if e.Up? then 1 else 0)
      && Verdicts(more) == Verdicts(es) + (if e.Verdict? then 1 else 0)
      && StampIn(more) == (if e.Stamp? then e.version else StampIn(es))
      && (AllSigned(more) <==> AllSigned(es) && (e.Verdict? ==> e.ok))
    ensures var more := es + [e]; |es| > 1 ==> Offer(more) == Offer(es)
    ensures var more := es + [e]; |es| > 2 ==> Reported(more) == Reported(es)
    ensures var more := es + [e]; |es| == 1 && !e.Resolve? ==> Offer(more) == None
    ensures |es| > 1 || call.request.action != Upgrade ==> Target(call, st, es + [e]) == Target(call, st, es)
    ensures var more := es + [e]; |es| > 2 ==> (SchemaIsThere(more) <==> SchemaIsThere(es))
    ensures var more := es + [e];
      (|es| > 1 || call.request.action != Upgrade) && !e.Stamp? ==>
        && Target(call, st, more) == Target(call, st, es) && Wanted(call, st, more) == Wanted(call, st, es)
        && WantedDb(call, more) == WantedDb(call, es)
  {
    var more := es + [e];
    assert more[..|more| - 1] == es;
    assert forall i :: 0 <= i < |es| ==> more[i] == es[i];
    if AllSigned(es) && (e.Verdict? ==> e.ok) {
      assert AllSigned(more);
    }
    if AllSigned(more) {
      assert forall i :: 0 <= i < |es| && es[i].Verdict? ==> more[i].ok;
      assert more[|es|] == e;
    }
  }

  // ---- every step tells the story ------------------------------------------

  /** `e` was due, lets the run go on or ends it with its word, and what the
      machine knows afterwards is what has been told. */
  ghost predicate Told(cfg: Config, call: Call, st: LockState, es: seq<Event>, e: Event, to: Pc) {
    && Due(cfg, call, st, es, e)
    && (to.Done? <==> !GoesOn(cfg, call, st, es, e))
    && (to.Done? ==> to.outcome == Word(cfg, call, st, es, e))
    && Knows(cfg, call, st, es + [e], to)
  }

  lemma TellReading(cfg: Config, call: Call, st: LockState, es: seq<Event>, e: Event)
    requires Knows(cfg, call, st, es, Reading(call)) && OnReading(cfg, call, e).Some?
    requires e.ReadLock? ==> cfg.format.read(e.text) == Ok(st)
    ensures Told(cfg, call, st, es, e, OnReading(cfg, call, e).value)
  {
    Grown(call, st, es, e);
    QuestionsStart(cfg, call, st, es, e);
  }

  lemma TellResolving(cfg: Config, call: Call, st: LockState, es: seq<Event>, e: Event)
    requires Knows(cfg, call, st, es, Resolving(call, st)) && OnResolving(cfg, call, st, e).Some?
    ensures Told(cfg, call, st, es, e, OnResolving(cfg, call, st, e).value)
  {
    Grown(call, st, es, e);
  }

  lemma TellProbing(cfg: Config, call: Call, st: LockState, es: seq<Event>, rel: Release, e: Event)
    requires Knows(cfg, call, st, es, Probing(call, st, rel)) && OnProbing(cfg, call, st, rel, e).Some?
    ensures Told(cfg, call, st, es, e, OnProbing(cfg, call, st, rel, e).value)
  {
    Grown(call, st, es, e);
  }

  lemma TellVerdict(cfg: Config, call: Call, st: LockState, es: seq<Event>, job: Job, todo: seq<(string, string)>,
                   passed: bool, e: Event)
    requires Knows(cfg, call, st, es, Verifying(job, todo, passed)) && OnVerifying(cfg, job, todo, passed, e).Some?
    requires todo != []
    ensures Told(cfg, call, st, es, e, OnVerifying(cfg, job, todo, passed, e).value)
  {
    Grown(call, st, es, e);
    QuestionsInOrder(cfg, job.target, Verdicts(es));
    hide PreflightPasses;
    hide Ready;
    hide Replaces;
    hide ToVerify;
    hide Question;
    hide Target;
    hide Wanted;
    hide WantedDb;
    hide Offer;
    hide Reported;
    hide SchemaIsThere;
  }

  lemma TellChecked(cfg: Config, call: Call, st: LockState, es: seq<Event>, job: Job, todo: seq<(string, string)>,
                   passed: bool, e: Event)
    requires Knows(cfg, call, st, es, Verifying(job, todo, passed)) && OnVerifying(cfg, job, todo, passed, e).Some?
    requires todo == []
    ensures Told(cfg, call, st, es, e, OnVerifying(cfg, job, todo, passed, e).value)
  {
    QuestionsInOrder(cfg, job.target, Verdicts(es));
    assert CheckDue(cfg, call, st, es, e) by {
      hide ToVerify;
      hide Question;
    }
    hide ToVerify;
    hide CheckDue;
    if job.release.Some? {
      RefsOfTarget(call, st, es, job);
      PreflightIsReady(cfg, job, e.files, e.disk, passed);
      hide PreflightPasses;
      hide Ready;
      assert OnVerifying(cfg, job, todo, passed, e).value.Done? <==> !GoesOn(cfg, call, st, es, e);
      TellPreflight(cfg, call, st, es, job, passed, e);
    } else {
      TellHealthBack(cfg, call, st, es, job, passed, e);
    }
    hide Due;
    hide Knows;
  }

  lemma TellPreflight(cfg: Config, call: Call, st: LockState, es: seq<Event>, job: Job, passed: bool, e: Event)
    requires Knows(cfg, call, st, es, Verifying(job, [], passed)) && job.release.Some? && e.Preflight?
    requires CheckDue(cfg, call, st, es, e)
    ensures Due(cfg, call, st, es, e) && Knows(cfg, call, st, es + [e], Confirming(job))
  {
    Grown(call, st, es, e);
    hide ToVerify;
    hide CheckDue;
    hide Target;
    hide Wanted;
    hide WantedDb;
    hide Passes;
  }

  lemma TellHealthBack(cfg: Config, call: Call, st: LockState, es: seq<Event>, job: Job, passed: bool, e: Event)
    requires Knows(cfg, call, st, es, Verifying(job, [], passed)) && job.release.None? && e.Quick?
    requires CheckDue(cfg, call, st, es, e)
    ensures Due(cfg, call, st, es, e) && Knows(cfg, call, st, es + [e], ProbingBack(job.(health := e.health), passed))
  {
    Grown(call, st, es, e);
    hide ToVerify;
    hide CheckDue;
    hide Target;
    hide Wanted;
    hide WantedDb;
    hide Passes;
  }

  lemma RefsOfTarget(call: Call, st: LockState, es: seq<Event>, job: Job)
    requires Known(call, st, es, job) && job.release.Some?
    ensures job.target.backend == job.release.value.backendRef && job.target.frontend == job.release.value.frontendRef
    ensures Offer(es) == job.release && Reported(es) == job.health
  {
  }

  lemma TellProbingBack(cfg: Config, call: Call, st: LockState, es: seq<Event>, job: Job, passed: bool, e: Event)
    requires Knows(cfg, call, st, es, ProbingBack(job, passed)) && OnProbingBack(job, passed, e).Some?
    ensures Told(cfg, call, st, es, e, OnProbingBack(job, passed, e).value)
  {
    Grown(call, st, es, e);
  }

  lemma TellConfirming(cfg: Config, call: Call, st: LockState, es: seq<Event>, job: Job, e: Event)
    requires Knows(cfg, call, st, es, Confirming(job)) && OnConfirming(cfg, job, e).Some?
    ensures Told(cfg, call, st, es, e, OnConfirming(cfg, job, e).value)
  {
    Grown(call, st, es, e);
    if e.Confirm? {
      ApprovedIsConsent(call, e.yes);
    }
    hide Approved;
    hide Consents;
    hide Wanted;
    hide WantedDb;
    hide Target;
    hide Passes;
  }

  lemma TellBackingUp(cfg: Config, call: Call, st: LockState, es: seq<Event>, job: Job, e: Event)
    requires Knows(cfg, call, st, es, BackingUp(job)) && OnBackingUp(cfg, job, e).Some?
    ensures Told(cfg, call, st, es, e, OnBackingUp(cfg, job, e).value)
  {
    Grown(call, st, es, e);
    hide Wanted;
    hide WantedDb;
    hide Target;
    hide Passes;
  }

  lemma TellPulling(cfg: Config, call: Call, st: LockState, es: seq<Event>, job: Job, e: Event)
    requires Knows(cfg, call, st, es, Pulling(job)) && OnPulling(job, e).Some?
    ensures Told(cfg, call, st, es, e, OnPulling(job, e).value)
  {
    Grown(call, st, es, e);
    hide Wanted;
    hide WantedDb;
    hide Target;
    hide Passes;
  }

  lemma TellMigrating(cfg: Config, call: Call, st: LockState, es: seq<Event>, job: Job, e: Event)
    requires Knows(cfg, call, st, es, Migrating(job)) && OnMigrating(job, e).Some?
    ensures Told(cfg, call, st, es, e, OnMigrating(job, e).value)
  {
    Grown(call, st, es, e);
    hide Wanted;
    hide WantedDb;
    hide Target;
    hide Passes;
  }

  lemma TellRecreating(cfg: Config, call: Call, st: LockState, es: seq<Event>, job: Job, e: Event)
    requires Knows(cfg, call, st, es, Recreating(job)) && OnRecreating(job, e).Some?
    ensures Told(cfg, call, st, es, e, OnRecreating(job, e).value)
  {
    Grown(call, st, es, e);
    hide Wanted;
    hide WantedDb;
    hide Target;
    hide Passes;
  }

  lemma TellRestarting(cfg: Config, call: Call, st: LockState, es: seq<Event>, job: Job, e: Event)
    requires Knows(cfg, call, st, es, Restarting(job)) && OnRestarting(job, e).Some?
    ensures Told(cfg, call, st, es, e, OnRestarting(job, e).value)
  {
    Grown(call, st, es, e);
    hide Wanted;
    hide WantedDb;
    hide Passes;
  }

  lemma TellHealing(cfg: Config, call: Call, st: LockState, es: seq<Event>, job: Job, e: Event)
    requires Knows(cfg, call, st, es, Healing(job)) && OnHealing(cfg, job, e).Some?
    ensures Told(cfg, call, st, es, e, OnHealing(cfg, job, e).value)
  {
    Grown(call, st, es, e);
    hide Serving;
    hide Wanted;
    hide WantedDb;
    hide Target;
    hide Passes;
    hide Ups;
    hide Verdicts;
    hide StampIn;
    if e.CheckHealth? {
      ServingIsPassing(cfg, job.version, job.db, e.round);
    }
  }

  lemma TellCommitting(cfg: Config, call: Call, st: LockState, es: seq<Event>, job: Job, e: Event)
    requires Knows(cfg, call, st, es, Committing(job)) && OnCommitting(cfg, job, e).Some?
    ensures Told(cfg, call, st, es, e, OnCommitting(cfg, job, e).value)
  {
    NewTextIs(cfg, call, st, es, job);
    StillKnown(call, st, es, job, e);
    WritingIsDue(cfg, call, st, es, e);
    hide Due;
    hide Known;
    hide Render;
    hide NewText;
    hide Wanted;
    hide WantedDb;
    hide Passes;
    hide Ups;
    if e.Unwritten? {
      LastTold(cfg, call, st, es, e, Word(cfg, call, st, es, e), job);
    }
  }

  lemma WritingIsDue(cfg: Config, call: Call, st: LockState, es: seq<Event>, e: Event)
    requires es != [] && Last(es).CheckHealth? && Ups(es) == 1 && Written(cfg, call, st, es, e)
    requires Passes(cfg, Wanted(call, st, es), WantedDb(call, es), Last(es).round)
    ensures Due(cfg, call, st, es, e)
  {
    hide NewText;
    hide Wanted;
    hide WantedDb;
    hide Passes;
    hide Ups;
  }

  lemma StillKnown(call: Call, st: LockState, es: seq<Event>, job: Job, e: Event)
    requires Known(call, st, es, job) && !e.Stamp? && (call.request.action != Upgrade ==> !e.Resolve?)
    ensures Known(call, st, es + [e], job) && Last(es + [e]) == e && job.call == call
  {
    Grown(call, st, es, e);
    hide Wanted;
    hide WantedDb;
    hide Target;
  }

  lemma TellSyncing(cfg: Config, call: Call, st: LockState, es: seq<Event>, job: Job, e: Event)
    requires Knows(cfg, call, st, es, Syncing(job)) && OnSyncing(job, e).Some?
    ensures Told(cfg, call, st, es, e, OnSyncing(job, e).value)
  {
    Grown(call, st, es, e);
    hide Wanted;
    hide WantedDb;
    hide Target;
    hide Passes;
  }

  lemma TellUndoing(cfg: Config, call: Call, st: LockState, es: seq<Event>, job: Job, e: Event)
    requires Knows(cfg, call, st, es, Undoing(job)) && OnUndoing(job, e).Some?
    ensures Told(cfg, call, st, es, e, OnUndoing(job, e).value)
  {
    Grown(call, st, es, e);
    hide Wanted;
    hide WantedDb;
    hide Target;
    hide Passes;
  }

  lemma TellUndoHealing(cfg: Config, call: Call, st: LockState, es: seq<Event>, job: Job, e: Event)
    requires Knows(cfg, call, st, es, UndoHealing(job)) && OnUndoHealing(cfg, job, e).Some?
    ensures Told(cfg, call, st, es, e, OnUndoHealing(cfg, job, e).value)
  {
    Grown(call, st, es, e);
    StillKnown(call, st, es, job, e);
    RoundIsDue(cfg, call, st, es, e);
    hide Due;
    hide Known;
    hide Serving;
    hide Target;
    hide Wanted;
    hide WantedDb;
    hide Passes;
    hide Ups;
    if e.SleepRaised? {
      LastTold(cfg, call, st, es, e, SleepFailed, job);
    } else {
      ServingIsPassing(cfg, VersionOf(st.current), None, e.round);
      LastTold(cfg, call, st, es, e, if Fine(cfg, call, st, es, e.round) then RolledBack else RollbackFailed, job);
    }
  }

  lemma LastTold(cfg: Config, call: Call, st: LockState, es: seq<Event>, e: Event, outcome: Outcome, job: Job)
    ensures Due(cfg, call, st, es, e) && !GoesOn(cfg, call, st, es, e) && outcome == Word(cfg, call, st, es, e) ==>
            Told(cfg, call, st, es, e, Done(outcome, Some(job)))
  {
  }

  lemma RoundIsDue(cfg: Config, call: Call, st: LockState, es: seq<Event>, e: Event)
    requires Waiting(cfg, call, st, es) && RoundDue(cfg, e)
    requires Last(es).CheckHealth? && call.request.action == Restart ==> Ups(es) != 1
    ensures Due(cfg, call, st, es, e)
  {
    hide Wanted;
    hide WantedDb;
    hide Passes;
    hide Ups;
  }

  lemma QuestionsStart(cfg: Config, call: Call, st: LockState, es: seq<Event>, e: Event)
    requires es == []
    ensures Verdicts(es + [e]) == if e.Verdict? then 1 else 0
  {
    assert (es + [e])[..0] == [];
  }

  predicate Opening(pc: Pc) {
    pc.Reading? || pc.Resolving? || pc.Probing? || pc.Verifying?
  }

  lemma StepTells(cfg: Config, call: Call, st: LockState, es: seq<Event>, pc: Pc, e: Event)
    requires Knows(cfg, call, st, es, pc) && Step(cfg, pc, e).Some?
    requires pc.Reading? && e.ReadLock? ==> cfg.format.read(e.text) == Ok(st)
    ensures Told(cfg, call, st, es, e, Step(cfg, pc, e).value)
  {
    if Opening(pc) { EarlyTells(cfg, call, st, es, pc, e); } else { LateTells(cfg, call, st, es, pc, e); }
    hide Knows;
    hide Told;
    hide Step;
  }

  lemma EarlyTells(cfg: Config, call: Call, st: LockState, es: seq<Event>, pc: Pc, e: Event)
    requires Opening(pc) && Knows(cfg, call, st, es, pc) && Step(cfg, pc, e).Some?
    requires pc.Reading? && e.ReadLock? ==> cfg.format.read(e.text) == Ok(st)
    ensures Told(cfg, call, st, es, e, Step(cfg, pc, e).value)
  {
    KnowsTheCall(cfg, call, st, es, pc);
    hide Knows;
    hide Told;
    match pc {
      case Reading(_) => TellReading(cfg, call, st, es, e);
      case Resolving(_, _) => TellResolving(cfg, call, st, es, e);
      case Probing(_, _, rel) => TellProbing(cfg, call, st, es, rel, e);
      case Verifying(job, todo, passed) =>
        if todo != [] { TellVerdict(cfg, call, st, es, job, todo, passed, e); }
        else { TellChecked(cfg, call, st, es, job, todo, passed, e); }
    }
  }

  lemma LateTells(cfg: Config, call: Call, st: LockState, es: seq<Event>, pc: Pc, e: Event)
    requires !Opening(pc) && Knows(cfg, call, st, es, pc) && Step(cfg, pc, e).Some?
    ensures Told(cfg, call, st, es, e, Step(cfg, pc, e).value)
  {
    hide Knows;
    hide Told;
    match pc {
      case ProbingBack(job, passed) => TellProbingBack(cfg, call, st, es, job, passed, e);
      case Confirming(job) => TellConfirming(cfg, call, st, es, job, e);
      case BackingUp(job) => TellBackingUp(cfg, call, st, es, job, e);
      case Pulling(job) => TellPulling(cfg, call, st, es, job, e);
      case Migrating(job) => TellMigrating(cfg, call, st, es, job, e);
      case Recreating(job) => TellRecreating(cfg, call, st, es, job, e);
      case Restarting(job) => TellRestarting(cfg, call, st, es, job, e);
      case Healing(job) => TellHealing(cfg, call, st, es, job, e);
      case Committing(job) => TellCommitting(cfg, call, st, es, job, e);
      case Syncing(job) => TellSyncing(cfg, call, st, es, job, e);
      case Undoing(job) => TellUndoing(cfg, call, st, es, job, e);
      case UndoHealing(job) => TellUndoHealing(cfg, call, st, es, job, e);
      case _ =>
    }
  }

  lemma KnowsTheCall(cfg: Config, call: Call, st: LockState, es: seq<Event>, pc: Pc)
    requires Knows(cfg, call, st, es, pc)
    ensures pc.Reading? || pc.Resolving? || pc.Probing? ==> pc.call == call
    ensures pc.Resolving? || pc.Probing? ==> pc.st == st
  {
    hide Known;
    hide Passes;
  }

  lemma {:induction false} RunKnows(cfg: Config, call: Call, w0: World, st: LockState, es: seq<Event>, pc: Pc)
    requires RunOf(cfg, call, w0, es, pc) && cfg.format.read(w0.lock) == Ok(st)
    ensures Knows(cfg, call, st, es, pc)
    decreases |es|
  {
    hide Step;
    if es == [] {
      assert pc == Reading(call);
    } else {
      var n := |es| - 1;
      var p := LastStep(cfg, call, w0, st, es, pc);
      RunKnows(cfg, call, w0, st, es[..n], p);
      StepTells(cfg, call, st, es[..n], p, es[n]);
      assert es == es[..n] + [es[n]];
      hide Due;
      hide Knows;
    }
  }

  /** Where the last command was issued. */
  lemma LastStep(cfg: Config, call: Call, w0: World, st: LockState, es: seq<Event>, pc: Pc) returns (p: Pc)
    requires RunOf(cfg, call, w0, es, pc) && es != [] && cfg.format.read(w0.lock) == Ok(st)
    ensures var n := |es| - 1; RunOf(cfg, call, w0, es[..n], p) && Step(cfg, p, es[n]) == Some(pc)
    ensures p.Reading? && Last(es).ReadLock? ==> cfg.format.read(Last(es).text) == Ok(st)
  {
    hide Step;
    var n := |es| - 1;
    p := Steps(cfg, Reading(call), es[..n]).value;
    assert forall i :: 0 <= i < n ==> es[..n][..i] == es[..i];
    if p.Reading? && es[n].ReadLock? {
      ReadingIsFirst(cfg, call, es[..n], p);
    }
  }

  lemma ReadingIsFirst(cfg: Config, call: Call, es: seq<Event>, pc: Pc)
    requires Steps(cfg, Reading(call), es) == Some(pc) && pc.Reading?
    ensures es == []
  {
    if es != [] {
      NeverReadingAgain(cfg, Steps(cfg, Reading(call), es[..|es| - 1]).value, es[|es| - 1]);
    }
    hide Step;
  }

  lemma NeverReadingAgain(cfg: Config, pc: Pc, e: Event)
    requires Step(cfg, pc, e).Some?
    ensures !Step(cfg, pc, e).value.Reading?
  {
    hide Serving;
  }

  // ---- the story of every run ----------------------------------------------

  /** Every run, finished or not, told command by command: each was due after the
      ones before it; each answer but the last let the run go on; the last one
      ended the run exactly when it is one that does; and then the run has the
      word for it. */
  lemma {:induction false} EveryCommandIsDue(cfg: Config, call: Call, w0: World, st: LockState, es: seq<Event>, pc: Pc,
                                             i: nat)
    requires RunOf(cfg, call, w0, es, pc) && cfg.format.read(w0.lock) == Ok(st) && i < |es|
    ensures Due(cfg, call, st, es[..i], es[i])
    ensures GoesOn(cfg, call, st, es[..i], es[i]) <==> i < |es| - 1 || !pc.Done?
    ensures i == |es| - 1 && pc.Done? ==> pc.outcome == Word(cfg, call, st, es[..i], es[i])
    decreases |es|
  {
    var n := |es| - 1;
    var p := LastStep(cfg, call, w0, st, es, pc);
    DoneIsFinal(cfg, p, es[n]);
    hide Step;
    hide Due;
    hide GoesOn;
    if i == n {
      RunKnows(cfg, call, w0, st, es[..n], p);
      StepTells(cfg, call, st, es[..n], p, es[n]);
      hide Knows;
    } else {
      EveryCommandIsDue(cfg, call, w0, st, es[..n], p, i);
      assert es[..n][..i] == es[..i];
    }
  }

  /** A lock that cannot be read ends the run at once. */
  lemma UnreadableEnds(cfg: Config, call: Call, w0: World, es: seq<Event>, pc: Pc)
    requires RunOf(cfg, call, w0, es, pc) && cfg.format.read(w0.lock).Err?
    ensures es == [] || (es == [ReadLock(w0.lock)] && pc == Done(LockFileRaised, None))
  {
    if es != [] {
      StepsReach(cfg, Reading(call), es, 0);
      assert es[..0] == [] && es[0].ReadLock? && es[0].text == w0.lock;
      assert es[..1][..0] == [] && es[..1][0] == es[0];
      DoneIsLast(cfg, Reading(call), es, 1);
      assert es[..1] == es;
    }
  }

  lemma DoneIsLast(cfg: Config, pc: Pc, es: seq<Event>, n: nat)
    requires Steps(cfg, pc, es).Some? && n <= |es|
    requires Steps(cfg, pc, es[..n]).Some? && Steps(cfg, pc, es[..n]).value.Done?
    ensures n == |es|
  {
    if n < |es| {
      StepsReach(cfg, pc, es, n);
    }
  }

  // ---- going back ----------------------------------------------------------

  /** Services are recreated at most twice: on the new images, and then on the old. */
  ghost predicate UpsInOrder(call: Call, st: LockState, es: seq<Event>) {
    && Ups(es) <= 2
    && (Ups(es) >= 1 ==> exists i :: 0 <= i < |es| && UpOf(Target(call, st, es), es[i]))
    && (Ups(es) == 2 ==> TriedBoth(call, st, es))
  }

  ghost predicate TriedBoth(call: Call, st: LockState, es: seq<Event>) {
    exists i, j :: 0 <= i < j < |es| && UpOf(Target(call, st, es), es[i]) && UpOf(st.current, es[j])
  }

  lemma UpComesFrom(cfg: Config, call: Call, w0: World, st: LockState, es: seq<Event>, pc: Pc, e: Event)
    requires RunOf(cfg, call, w0, es, pc) && cfg.format.read(w0.lock) == Ok(st) && Step(cfg, pc, e).Some? && e.Up?
    ensures |es| > 1 || call.request.action != Upgrade
    ensures (Ups(es) == 0 && UpOf(Target(call, st, es), e)) || (Ups(es) == 1 && UpOf(st.current, e))
  {
    RunKnows(cfg, call, w0, st, es, pc);
    ActsFrom(cfg, pc, e);
    hide Step;
    hide Wanted;
    hide WantedDb;
    hide Passes;
    hide SchemaIsThere;
    hide ToVerify;
    hide AllSigned;
    hide Waiting;
    hide RunOf;
  }

  lemma {:induction false} UpsKeepOrder(cfg: Config, call: Call, w0: World, st: LockState, es: seq<Event>, pc: Pc)
    requires RunOf(cfg, call, w0, es, pc) && cfg.format.read(w0.lock) == Ok(st)
    ensures UpsInOrder(call, st, es)
    decreases |es|
  {
    if es != [] {
      var n := |es| - 1;
      var p := LastStep(cfg, call, w0, st, es, pc);
      hide Step;
      hide RunOf;
      UpsKeepOrder(cfg, call, w0, st, es[..n], p);
      Grown(call, st, es[..n], es[n]);
      assert es == es[..n] + [es[n]];
      EarlyHasNoUps(cfg, call, w0, st, es[..n], p);
      if es[n].Up? {
        UpComesFrom(cfg, call, w0, st, es[..n], p, es[n]);
      }
      OneMoreUp(call, st, es[..n], es[n]);
    }
  }

  lemma EarlyHasNoUps(cfg: Config, call: Call, w0: World, st: LockState, es: seq<Event>, pc: Pc)
    requires RunOf(cfg, call, w0, es, pc) && cfg.format.read(w0.lock) == Ok(st)
    ensures |es| <= 1 ==> Ups(es) == 0
  {
    RunKnows(cfg, call, w0, st, es, pc);
    if |es| == 1 {
      StepsReach(cfg, Reading(call), es, 0);
      assert es[..0] == [] && es[0].ReadLock?;
    }
  }

  lemma OneMoreUp(call: Call, st: LockState, es: seq<Event>, e: Event)
    requires UpsInOrder(call, st, es) && (|es| <= 1 ==> Ups(es) == 0)
    requires e.Up? ==> |es| > 1 || call.request.action != Upgrade
    requires e.Up? ==> (Ups(es) == 0 && UpOf(Target(call, st, es), e)) || (Ups(es) == 1 && UpOf(st.current, e))
    ensures UpsInOrder(call, st, es + [e])
  {
    var more := es + [e];
    Grown(call, st, es, e);
    hide Target;
    hide UpOf;
    if Ups(es) >= 1 {
      var i :| 0 <= i < |es| && UpOf(Target(call, st, es), es[i]);
      assert more[i] == es[i] && UpOf(Target(call, st, more), more[i]);
      if e.Up? {
        assert UpOf(st.current, more[|es|]);
        assert TriedBoth(call, st, more);
      } else if Ups(es) == 2 {
        StillTriedBoth(call, st, es, e);
      }
    } else if e.Up? {
      assert UpOf(Target(call, st, more), more[|es|]);
    }
  }

  lemma StillTriedBoth(call: Call, st: LockState, es: seq<Event>, e: Event)
    requires TriedBoth(call, st, es) && Target(call, st, es + [e]) == Target(call, st, es)
    ensures TriedBoth(call, st, es + [e])
  {
    var i, j :| 0 <= i < j < |es| && UpOf(Target(call, st, es), es[i]) && UpOf(st.current, es[j]);
    assert (es + [e])[i] == es[i] && (es + [e])[j] == es[j];
    hide UpOf;
    hide Target;
  }

  /** The new images' health was still bad at the deadline. */
  predicate Sick(cfg: Config, call: Call, st: LockState, es: seq<Event>, i: nat)
    requires i < |es|
  {
    && es[i].CheckHealth? && es[i].late && Ups(es[..i]) == 1
    && !Passes(cfg, Wanted(call, st, es[..i]), WantedDb(call, es[..i]), es[i].round)
  }

  /** The old images did not come up, or were still sick at their deadline. */
  predicate StillBad(cfg: Config, st: LockState, e: Event) {
    || (UpOf(st.current, e) && !e.ok)
    || (e.CheckHealth? && e.late && !Passes(cfg, VersionOf(st.current), None, e.round))
  }

  predicate FineAgain(cfg: Config, st: LockState, e: Event) {
    e.CheckHealth? && Passes(cfg, VersionOf(st.current), None, e.round)
  }

  /** Going back is tried whenever it is called for, and nothing says it was
      tried when it was not: an upgrade or rollback whose images were still sick
      at the deadline, or did not come up, starts the old ones next; it says it
      rolled back, or failed to, only after it had started the new images and
      then the old; and it says it failed only if the old ones did not come up
      either, or were still sick at their deadline. */
  lemma RollbackIsTried(cfg: Config, call: Call, w0: World, st: LockState, es: seq<Event>, outcome: Outcome,
                        about: Option<Job>)
    requires RunOf(cfg, call, w0, es, Done(outcome, about)) && cfg.format.read(w0.lock) == Ok(st)
    requires call.request.action != Restart
    ensures outcome == RolledBack || outcome == RollbackFailed ==> TriedBoth(call, st, es)
    ensures outcome == RollbackFailed ==> es != [] && StillBad(cfg, st, Last(es))
    ensures outcome == RolledBack ==> es != [] && FineAgain(cfg, st, Last(es))
    ensures forall i: nat :: i < |es| && Sick(cfg, call, st, es, i) ==> i + 1 < |es| && UpOf(st.current, es[i + 1])
    ensures forall i: nat :: i < |es| && es[i].Up? && !es[i].ok && Ups(es[..i]) == 0 ==>
              i + 1 < |es| && UpOf(st.current, es[i + 1])
  {
    UpsKeepOrder(cfg, call, w0, st, es, Done(outcome, about));
    if es != [] {
      WordNeedsTwoUps(cfg, call, w0, st, es, outcome, about);
    }
    forall i: nat | i < |es| && Sick(cfg, call, st, es, i) ensures i + 1 < |es| && UpOf(st.current, es[i + 1]) {
      AfterSickness(cfg, call, w0, st, es, Done(outcome, about), i);
    }
    forall i: nat | i < |es| && es[i].Up? && !es[i].ok && Ups(es[..i]) == 0
      ensures i + 1 < |es| && UpOf(st.current, es[i + 1])
    {
      AfterSickness(cfg, call, w0, st, es, Done(outcome, about), i);
    }
  }

  lemma AfterSickness(cfg: Config, call: Call, w0: World, st: LockState, es: seq<Event>, pc: Pc, i: nat)
    requires RunOf(cfg, call, w0, es, pc) && cfg.format.read(w0.lock) == Ok(st) && pc.Done? && i < |es|
    requires Sick(cfg, call, st, es, i) || (es[i].Up? && !es[i].ok && Ups(es[..i]) == 0)
    ensures i + 1 < |es| && UpOf(st.current, es[i + 1])
  {
    EveryCommandIsDue(cfg, call, w0, st, es, pc, i);
    hide RunOf;
    if i + 1 < |es| {
      EveryCommandIsDue(cfg, call, w0, st, es, pc, i + 1);
      assert es[..i + 1] == es[..i] + [es[i]];
      Grown(call, st, es[..i], es[i]);
      EarlyHasUpsLater(cfg, call, w0, st, es, pc, i);
      hide Target;
      hide Wanted;
      hide WantedDb;
      hide Passes;
    }
  }

  /** Commands on images come after the first two. */
  lemma EarlyHasUpsLater(cfg: Config, call: Call, w0: World, st: LockState, es: seq<Event>, pc: Pc, i: nat)
    requires RunOf(cfg, call, w0, es, pc) && cfg.format.read(w0.lock) == Ok(st) && i < |es|
    requires es[i].Up? || Ups(es[..i]) >= 1
    ensures i > 1 || call.request.action != Upgrade
  {
    StepsReach(cfg, Reading(call), es, i);
    var p := Steps(cfg, Reading(call), es[..i]).value;
    assert forall k :: 0 <= k < i ==> es[..i][..k] == es[..k];
    hide Step;
    EarlyHasNoUps(cfg, call, w0, st, es[..i], p);
    if es[i].Up? {
      UpComesFrom(cfg, call, w0, st, es[..i], p, es[i]);
    }
  }

  lemma WordNeedsTwoUps(cfg: Config, call: Call, w0: World, st: LockState, es: seq<Event>, outcome: Outcome,
                        about: Option<Job>)
    requires RunOf(cfg, call, w0, es, Done(outcome, about)) && cfg.format.read(w0.lock) == Ok(st) && es != []
    requires call.request.action != Restart
    ensures outcome == RolledBack || outcome == RollbackFailed ==> Ups(es) == 2
    ensures outcome == RollbackFailed ==> StillBad(cfg, st, Last(es))
    ensures outcome == RolledBack ==> FineAgain(cfg, st, Last(es))
  {
    var n := |es| - 1;
    var p := LastStep(cfg, call, w0, st, es, Done(outcome, about));
    EveryCommandIsDue(cfg, call, w0, st, es, Done(outcome, about), n);
    hide Due;
    hide GoesOn;
    hide Word;
    hide StillBad;
    hide FineAgain;
    if es[n].Up? {
      UpComesFrom(cfg, call, w0, st, es[..n], p, es[n]);
    } else if es[n].CheckHealth? {
      RoundComesFrom(cfg, call, w0, st, es[..n], p, es[n]);
    }
    hide RunOf;
    hide Step;
    assert es == es[..n] + [es[n]];
    EndsGoingBack(cfg, call, st, es[..n], es[n]);
  }

  lemma RoundComesFrom(cfg: Config, call: Call, w0: World, st: LockState, es: seq<Event>, pc: Pc, e: Event)
    requires RunOf(cfg, call, w0, es, pc) && cfg.format.read(w0.lock) == Ok(st) && call.request.action != Restart
    requires Step(cfg, pc, e).Some? && e.CheckHealth?
    ensures 1 <= Ups(es) <= 2
  {
    RunKnows(cfg, call, w0, st, es, pc);
    RoundPoint(cfg, pc, e);
    hide Step;
    hide Known;
    hide Waiting;
  }

  lemma RoundPoint(cfg: Config, pc: Pc, e: Event)
    requires Step(cfg, pc, e).Some? && e.CheckHealth?
    ensures pc.Healing? || pc.UndoHealing?
  {
    hide Serving;
  }

  /** What ends a run with either word, given how often services were recreated. */
  lemma EndsGoingBack(cfg: Config, call: Call, st: LockState, es: seq<Event>, e: Event)
    requires !GoesOn(cfg, call, st, es, e) && call.request.action != Restart
    requires e.Up? ==> Ups(es) == 0 || (Ups(es) == 1 && UpOf(st.current, e))
    requires e.CheckHealth? ==> 1 <= Ups(es) <= 2
    ensures var word := Word(cfg, call, st, es, e);
      && (word == RolledBack || word == RollbackFailed ==> Ups(es + [e]) == 2)
      && (word == RollbackFailed ==> StillBad(cfg, st, e))
      && (word == RolledBack ==> FineAgain(cfg, st, e))
  {
    Grown(call, st, es, e);
    hide Target;
    hide Wanted;
    hide WantedDb;
    hide Passes;
  }
}
