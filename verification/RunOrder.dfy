/** What must already have happened, in order and for exactly these images,
    before a run migrates, recreates or commits. */
module RunOrder {
  import opened Base
  import opened Approval
  import opened RunMachine
  import opened RunProperties
  import opened RunWords

  /** Both images are signed, and attested as often as the instance demands,
      and an upgrade passed the rest of the preflight. */
  ghost predicate VerifiedIn(cfg: Config, job: Job, es: seq<Event>) {
    && (cfg.insecure || (SignedIn(cfg, job.target.backend, es) && SignedIn(cfg, job.target.frontend, es)))
    && (job.release.Some? ==>
          AskedIn(job, es) && Preflight(true, true) in es && Ready(cfg, job.target, job.release.value, job.health))
  }

  /** The release is the one the registry named, and the health the one reported. */
  ghost predicate AskedIn(job: Job, es: seq<Event>) {
    Resolve(job.release) in es && Quick(job.health) in es
  }

  ghost predicate SignedIn(cfg: Config, ref: string, es: seq<Event>) {
    && Pinned(ref) && Verdict("signature", ref, true) in es
    && (cfg.requireAttestations ==> forall t :: t in cfg.attestationTypes ==>
       Verdict("attestation:" + t, ref, true) in es)
  }

  function Good(check: (string, string)): Event {
    Verdict(check.0, check.1, true)
  }

  ghost predicate PassedIn(check: (string, string), es: seq<Event>) {
    Good(check) in es && Pinned(check.1)
  }

  /** Every check not still to be made has come back good. */
  ghost predicate AllBut(all: seq<(string, string)>, todo: seq<(string, string)>, es: seq<Event>) {
    forall x :: x in all ==> x in todo || PassedIn(x, es)
  }

  ghost predicate ApprovedIn(cfg: Config, job: Job, es: seq<Event>) {
    exists i, yes :: 0 <= i < |es| && es[i] == Confirm(yes) && (yes ==> job.call.prompt)
      && Consents(job.call, yes)
      && (job.call.request.action != Restart ==> VerifiedIn(cfg, job, es[..i]))
  }

  ghost predicate BackedUpIn(cfg: Config, job: Job, es: seq<Event>) {
    if job.call.request.action == Upgrade && cfg.backupMode != Off then
      exists i :: 0 <= i < |es| && GoodBackup(cfg, job, es[i]) && ApprovedIn(cfg, job, es[..i])
    else ApprovedIn(cfg, job, es)
  }

  /** A backup of the running images, restore-verified when the mode says so. */
  predicate GoodBackup(cfg: Config, job: Job, e: Event) {
    && e.Backup? && e.images == job.st.current && e.exit == 0 && e.reportOk
    && (cfg.backupMode == Verify ==> e.verified)
  }

  ghost predicate PulledIn(cfg: Config, job: Job, es: seq<Event>) {
    exists i :: 0 <= i < |es| && es[i] == Pull(job.target, true) && BackedUpIn(cfg, job, es[..i])
  }

  /** The instance already reports the very revision the release names. */
  predicate AtRevision(job: Job)
    requires job.release.Some?
  {
    Truthy(job.release.value.dbRevision) && job.health.Some?
        && job.health.value.dbRevision == job.release.value.dbRevision
  }

  ghost predicate MigratedIn(cfg: Config, job: Job, es: seq<Event>) {
    if job.release.Some? && !AtRevision(job) then
      exists i :: 0 <= i < |es| && GoodMigration(job, es[i]) && PulledIn(cfg, job, es[..i])
    else PulledIn(cfg, job, es)
  }

  predicate GoodMigration(job: Job, e: Event) {
    e.Migrate? && e.images == job.target && e.exit == 0 && e.destructive == job.call.request.allowDestructive
  }

  ghost predicate RecreatedIn(cfg: Config, job: Job, es: seq<Event>) {
    exists i :: 0 <= i < |es| && es[i].Up? && es[i].images == job.target && MigratedIn(cfg, job, es[..i])
  }

  // ---- none of these is undone by what follows ---------------------------

  lemma Later(cfg: Config, job: Job, es: seq<Event>, e: Event)
    ensures VerifiedIn(cfg, job, es) ==> VerifiedIn(cfg, job, es + [e])
    ensures ApprovedIn(cfg, job, es) ==> ApprovedIn(cfg, job, es + [e])
    ensures BackedUpIn(cfg, job, es) ==> BackedUpIn(cfg, job, es + [e])
    ensures PulledIn(cfg, job, es) ==> PulledIn(cfg, job, es + [e])
    ensures RecreatedIn(cfg, job, es) ==> RecreatedIn(cfg, job, es + [e])
  {
    var fs := es + [e];
    assert forall i :: 0 <= i < |es| ==> fs[i] == es[i] && fs[..i] == es[..i];
    if ApprovedIn(cfg, job, es) {
      var i, yes :| 0 <= i < |es| && es[i] == Confirm(yes) && (yes ==> job.call.prompt)
        && Consents(job.call, yes)
        && (job.call.request.action != Restart ==> VerifiedIn(cfg, job, es[..i]));
      assert fs[i] == Confirm(yes);
    }
  }

  /** What has been passed by the time the run is at `pc`. */
  ghost predicate PassedAt(cfg: Config, es: seq<Event>, pc: Pc) {
    match pc
    case Probing(_, _, rel) => Resolve(Some(rel)) in es
    case Verifying(job, todo, passed) =>
      (job.release.Some? ==> AskedIn(job, es)) && (passed ==> AllBut(ToVerify(cfg, job.target), todo, es))
    case ProbingBack(job, passed) => job.release.None? && (passed ==> VerifiedIn(cfg, job, es))
    case Confirming(job) => job.call.request.action != Restart ==> VerifiedIn(cfg, job, es)
    case BackingUp(job) => job.call.request.action == Upgrade && cfg.backupMode != Off && ApprovedIn(cfg, job, es)
    case Pulling(job) => job.call.request.action != Restart && BackedUpIn(cfg, job, es)
    case Migrating(job) => job.call.request.action != Restart && job.release.Some? && !AtRevision(job)
        && PulledIn(cfg, job, es)
    case Recreating(job) => job.call.request.action != Restart && MigratedIn(cfg, job, es)
    case Restarting(job) => job.call.request.action == Restart && ApprovedIn(cfg, job, es)
    case Healing(job) => if job.call.request.action == Restart then ApprovedIn(cfg, job, es)
        else RecreatedIn(cfg, job, es)
    case Committing(job) => RecreatedIn(cfg, job, es)
    case Undoing(job) => RecreatedIn(cfg, job, es)
    case _ => true
  }

  lemma FirstStepsPass(cfg: Config, es: seq<Event>, pc: Pc, e: Event)
    requires (pc.Reading? || pc.Resolving?) && Step(cfg, pc, e).Some?
    ensures PassedAt(cfg, es + [e], Step(cfg, pc, e).value)
  {
    assert e in es + [e];
  }

  lemma VerdictPasses(cfg: Config, es: seq<Event>, pc: Pc, e: Event)
    requires pc.Verifying? && pc.todo != [] && PassedAt(cfg, es, pc) && Step(cfg, pc, e).Some?
    ensures PassedAt(cfg, es + [e], Step(cfg, pc, e).value)
  {
    VerdictIs(cfg, pc, e);
    hide Step;
    var all := ToVerify(cfg, pc.job.target);
    hide ToVerify;
    if pc.passed && e.ok {
      OneMoreGood(all, pc.todo, es, e);
    }
    assert forall x :: x in es ==> x in es + [e];
  }

  lemma OneMoreGood(all: seq<(string, string)>, todo: seq<(string, string)>, es: seq<Event>, e: Event)
    requires todo != [] && e == Good(todo[0]) && Pinned(todo[0].1) && AllBut(all, todo, es)
    ensures AllBut(all, todo[1..], es + [e])
  {
    assert (es + [e])[|es|] == e && forall x :: x in es ==> x in es + [e];
    assert forall x :: x in todo ==> x == todo[0] || x in todo[1..];
  }

  lemma VerdictIs(cfg: Config, pc: Pc, e: Event)
    requires pc.Verifying? && pc.todo != [] && Step(cfg, pc, e).Some?
    ensures e.Verdict? && (e.kind, e.ref) == pc.todo[0] && (e.ok ==> Pinned(e.ref))
    ensures Step(cfg, pc, e) == Some(Verifying(pc.job, pc.todo[1..], pc.passed && e.ok))
  {
  }

  /** Everything `verify_all` asks for is everything there is to ask. */
  lemma AllAskedIsSigned(cfg: Config, images: ImageSet, es: seq<Event>)
    requires AllBut(ToVerify(cfg, images), [], es)
    ensures cfg.insecure || (SignedIn(cfg, images.backend, es) && SignedIn(cfg, images.frontend, es))
  {
    if !cfg.insecure {
      var all := ToVerify(cfg, images);
      assert all[0] in all && all[1] in all;
      assert Good(all[0]) == Verdict("signature", images.backend, true)
             && Good(all[1]) == Verdict("signature", images.frontend, true);
      if cfg.requireAttestations {
        var n := |cfg.attestationTypes|;
        forall t | t in cfg.attestationTypes
          ensures Verdict("attestation:" + t, images.backend, true) in es
                  && Verdict("attestation:" + t, images.frontend, true) in es
        {
          var i :| 0 <= i < n && cfg.attestationTypes[i] == t;
          assert all[2 + i] == ("attestation:" + t, images.backend)
                 && all[2 + n + i] == ("attestation:" + t, images.frontend);
          assert all[2 + i] in all && all[2 + n + i] in all;
        }
      }
    }
  }

  lemma PassedStays(all: seq<(string, string)>, es: seq<Event>, e: Event)
    requires AllBut(all, [], es)
    ensures AllBut(all, [], es + [e])
  {
    assert forall x :: x in es ==> x in es + [e];
  }

  lemma ProbePasses(cfg: Config, es: seq<Event>, pc: Pc, e: Event)
    requires pc.Probing? && PassedAt(cfg, es, pc) && Step(cfg, pc, e).Some?
    ensures PassedAt(cfg, es + [e], Step(cfg, pc, e).value)
  {
    assert e in es + [e] && forall x :: x in es ==> x in es + [e];
    hide ToVerify;
  }

  /** What the step after the last verdict can lead to. */
  lemma AfterVerdicts(cfg: Config, pc: Pc, e: Event)
    requires pc.Verifying? && pc.todo == [] && Step(cfg, pc, e).Some?
    ensures var after := Step(cfg, pc, e).value;
      if pc.job.release.None? then after.ProbingBack? && after.job.target == pc.job.target && after.passed == pc.passed
                                   && after.job.release == None && after.job.call == pc.job.call
      else
        || after.Done?
        || (after == Confirming(pc.job) && e == Preflight(true, true) && pc.passed
            && PreflightPasses(cfg, pc.job, true, true, true))
  {
    hide PreflightPasses;
    if pc.job.release.Some? && e.Preflight? && !(e.files && e.disk && pc.passed) {
      FailedPreflight(cfg, pc.job, e.files, e.disk, pc.passed);
    }
  }

  lemma FailedPreflight(cfg: Config, job: Job, files: bool, disk: bool, passed: bool)
    requires !(files && disk && passed)
    ensures !PreflightPasses(cfg, job, files, disk, passed)
  {
  }

  lemma PreflightIsLast(cfg: Config, es: seq<Event>, pc: Pc, e: Event)
    requires pc.Verifying? && pc.todo == [] && PassedAt(cfg, es, pc) && Step(cfg, pc, e).Some?
    ensures PassedAt(cfg, es + [e], Step(cfg, pc, e).value)
  {
    AfterVerdicts(cfg, pc, e);
    hide Step;
    assert (es + [e])[|es|] == e && forall x :: x in es ==> x in es + [e];
    var all := ToVerify(cfg, pc.job.target);
    hide ToVerify;
    if pc.passed {
      PassedStays(all, es, e);
      AllAskedIsSigned(cfg, pc.job.target, es + [e]);
    }
  }

  lemma StampPasses(cfg: Config, es: seq<Event>, pc: Pc, e: Event)
    requires pc.ProbingBack?
    requires PassedAt(cfg, es, pc) && Step(cfg, pc, e).Some?
    ensures PassedAt(cfg, es + [e], Step(cfg, pc, e).value)
  {
    hide ApprovedIn;
    hide BackedUpIn;
    hide PulledIn;
    hide MigratedIn;
    hide RecreatedIn;
    Later(cfg, pc.job, es, e);
    var fs := es + [e];
    assert fs[|es|] == e && fs[..|es|] == es;
  }

  lemma ConfirmPasses(cfg: Config, es: seq<Event>, pc: Pc, e: Event)
    requires pc.Confirming?
    requires PassedAt(cfg, es, pc) && Step(cfg, pc, e).Some?
    ensures PassedAt(cfg, es + [e], Step(cfg, pc, e).value)
  {
    ConfirmIs(cfg, pc, e);
    hide Step;
    hide VerifiedIn;
    if Consents(pc.job.call, e.yes) {
      NowApproved(cfg, pc.job, es, e);
    }
    hide ApprovedIn;
    hide Consents;
  }

  /** What the answer at the confirmation leads to. */
  lemma ConfirmIs(cfg: Config, pc: Pc, e: Event)
    requires pc.Confirming? && Step(cfg, pc, e).Some?
    ensures e.Confirm? && (e.yes ==> pc.job.call.prompt)
    ensures Step(cfg, pc, e) ==
            Some(if Consents(pc.job.call, e.yes) then AfterConfirm(cfg, pc.job) else Done(NotConfirmed, Some(pc.job)))
  {
    if e.Confirm? {
      ApprovedIsConsent(pc.job.call, e.yes);
    }
    hide Approved;
    hide Consents;
  }

  lemma NowApproved(cfg: Config, job: Job, es: seq<Event>, e: Event)
    requires e.Confirm? && (e.yes ==> job.call.prompt) && Consents(job.call, e.yes)
    requires job.call.request.action != Restart ==> VerifiedIn(cfg, job, es)
    ensures ApprovedIn(cfg, job, es + [e])
  {
    hide VerifiedIn;
    hide Consents;
    assert (es + [e])[|es|] == Confirm(e.yes) && (es + [e])[..|es|] == es;
  }

  lemma BackupPasses(cfg: Config, es: seq<Event>, pc: Pc, e: Event)
    requires pc.BackingUp?
    requires PassedAt(cfg, es, pc) && Step(cfg, pc, e).Some?
    ensures PassedAt(cfg, es + [e], Step(cfg, pc, e).value)
  {
    hide VerifiedIn;
    hide ApprovedIn;
    hide PulledIn;
    hide MigratedIn;
    hide RecreatedIn;
    Later(cfg, pc.job, es, e);
    var fs := es + [e];
    assert fs[|es|] == e && fs[..|es|] == es;
  }

  lemma PullPasses(cfg: Config, es: seq<Event>, pc: Pc, e: Event)
    requires pc.Pulling?
    requires PassedAt(cfg, es, pc) && Step(cfg, pc, e).Some?
    ensures PassedAt(cfg, es + [e], Step(cfg, pc, e).value)
  {
    hide VerifiedIn;
    hide ApprovedIn;
    hide BackedUpIn;
    hide RecreatedIn;
    Later(cfg, pc.job, es, e);
    var fs := es + [e];
    assert fs[|es|] == e && fs[..|es|] == es;
  }

  lemma MigratePasses(cfg: Config, es: seq<Event>, pc: Pc, e: Event)
    requires pc.Migrating?
    requires PassedAt(cfg, es, pc) && Step(cfg, pc, e).Some?
    ensures PassedAt(cfg, es + [e], Step(cfg, pc, e).value)
  {
    hide VerifiedIn;
    hide ApprovedIn;
    hide BackedUpIn;
    hide PulledIn;
    hide RecreatedIn;
    Later(cfg, pc.job, es, e);
    var fs := es + [e];
    assert fs[|es|] == e && fs[..|es|] == es;
  }

  lemma RecreatePasses(cfg: Config, es: seq<Event>, pc: Pc, e: Event)
    requires pc.Recreating?
    requires PassedAt(cfg, es, pc) && Step(cfg, pc, e).Some?
    ensures PassedAt(cfg, es + [e], Step(cfg, pc, e).value)
  {
    hide VerifiedIn;
    hide ApprovedIn;
    hide BackedUpIn;
    hide PulledIn;
    hide MigratedIn;
    Later(cfg, pc.job, es, e);
    var fs := es + [e];
    assert fs[|es|] == e && fs[..|es|] == es;
  }

  lemma HealthPasses(cfg: Config, es: seq<Event>, pc: Pc, e: Event)
    requires pc.Restarting? || pc.Healing?
    requires PassedAt(cfg, es, pc) && Step(cfg, pc, e).Some?
    ensures PassedAt(cfg, es + [e], Step(cfg, pc, e).value)
  {
    hide VerifiedIn;
    hide ApprovedIn;
    hide BackedUpIn;
    hide PulledIn;
    hide MigratedIn;
    hide RecreatedIn;
    Later(cfg, pc.job, es, e);
  }

  lemma FinishingEnds(cfg: Config, pc: Pc, e: Event)
    requires pc.Committing? || pc.Syncing? || pc.Undoing? || pc.UndoHealing?
    requires Step(cfg, pc, e).Some?
    ensures var after := Step(cfg, pc, e).value; after.Syncing? || after.UndoHealing? || after.Done?
  {
    hide Serving;
  }

  lemma FinishingPasses(cfg: Config, es: seq<Event>, pc: Pc, e: Event)
    requires pc.Committing? || pc.Syncing? || pc.Undoing? || pc.UndoHealing?
    requires Step(cfg, pc, e).Some?
    ensures PassedAt(cfg, es + [e], Step(cfg, pc, e).value)
  {
    FinishingEnds(cfg, pc, e);
    hide Step;
  }

  lemma DoneIsFinal(cfg: Config, pc: Pc, e: Event)
    ensures Step(cfg, pc, e).Some? ==> !pc.Done?
  {
  }

  lemma {:induction false} RunHasPassed(cfg: Config, call: Call, es: seq<Event>, pc: Pc)
    requires Steps(cfg, Reading(call), es) == Some(pc)
    ensures PassedAt(cfg, es, pc)
    decreases |es|
  {
    hide Step;
    if es != [] {
      var n := |es| - 1;
      var p := Steps(cfg, Reading(call), es[..n]).value;
      RunHasPassed(cfg, call, es[..n], p);
      assert es == es[..n] + [es[n]];
      DoneIsFinal(cfg, p, es[n]);
      if p.Verifying? && p.todo != [] { VerdictPasses(cfg, es[..n], p, es[n]); }
      else if p.Verifying? { PreflightIsLast(cfg, es[..n], p, es[n]); }
      else if p.Probing? { ProbePasses(cfg, es[..n], p, es[n]); }
      else if p.ProbingBack? { StampPasses(cfg, es[..n], p, es[n]); }
      else if p.Confirming? { ConfirmPasses(cfg, es[..n], p, es[n]); }
      else if p.BackingUp? { BackupPasses(cfg, es[..n], p, es[n]); }
      else if p.Pulling? { PullPasses(cfg, es[..n], p, es[n]); }
      else if p.Reading? || p.Resolving? { FirstStepsPass(cfg, es[..n], p, es[n]); }
      else if p.Migrating? { MigratePasses(cfg, es[..n], p, es[n]); }
      else if p.Recreating? { RecreatePasses(cfg, es[..n], p, es[n]); }
      else if p.Restarting? || p.Healing? { HealthPasses(cfg, es[..n], p, es[n]); }
      else { FinishingPasses(cfg, es[..n], p, es[n]); }
    }
  }

  lemma {:induction false} StepsReach(cfg: Config, pc: Pc, es: seq<Event>, n: nat)
    requires Steps(cfg, pc, es).Some? && n < |es|
    ensures Steps(cfg, pc, es[..n]).Some? && Step(cfg, Steps(cfg, pc, es[..n]).value, es[n]).Some?
    decreases |es|
  {
    hide Step;
    if n < |es| - 1 {
      StepsReach(cfg, pc, es[..|es| - 1], n);
      assert es[..|es| - 1][..n] == es[..n];
    }
  }

  function CallOf(pc: Pc): Option<Call> {
    match pc
    case Reading(call) => Some(call)
    case Resolving(call, _) => Some(call)
    case Probing(call, _, _) => Some(call)
    case Done(_, _) => None
    case _ => Some(pc.job.call)
  }

  lemma StepKeepsCall(cfg: Config, pc: Pc, e: Event)
    requires Step(cfg, pc, e).Some?
    ensures var after := Step(cfg, pc, e).value; after.Done? || CallOf(after) == CallOf(pc)
  {
    if BeforeActing(pc) {
      EarlyKeepsCall(cfg, pc, e);
    } else {
      LateKeepsCall(cfg, pc, e);
    }
    hide Step;
  }

  lemma EarlyKeepsCall(cfg: Config, pc: Pc, e: Event)
    requires Step(cfg, pc, e).Some? && BeforeActing(pc)
    ensures var after := Step(cfg, pc, e).value; after.Done? || CallOf(after) == CallOf(pc)
  {
    hide Fits;
    hide ToVerify;
    hide PreflightPasses;
    hide Approved;
  }

  lemma LateKeepsCall(cfg: Config, pc: Pc, e: Event)
    requires Step(cfg, pc, e).Some? && !BeforeActing(pc)
    ensures var after := Step(cfg, pc, e).value; after.Done? || CallOf(after) == CallOf(pc)
  {
    hide Serving;
    hide Render;
  }

  lemma {:induction false} RunKeepsCall(cfg: Config, call: Call, es: seq<Event>, pc: Pc)
    requires Steps(cfg, Reading(call), es) == Some(pc)
    ensures pc.Done? || CallOf(pc) == Some(call)
    decreases |es|
  {
    hide Step;
    if es != [] {
      var p := Steps(cfg, Reading(call), es[..|es| - 1]).value;
      RunKeepsCall(cfg, call, es[..|es| - 1], p);
      StepKeepsCall(cfg, p, es[|es| - 1]);
    }
  }

  /** In every run, finished or not, and for the one job the run works on (its
      call, its lock, the release its tag resolved to): a migration comes after
      the pull, backup, approval and verification of that job's images; a
      recreate on new images comes after the migration too, if one was needed;
      and the only other images ever started are those the lock names, after
      such a recreate. */
  lemma NothingActsEarly(cfg: Config, call: Call, w0: World, es: seq<Event>, pc: Pc, n: nat)
    requires RunOf(cfg, call, w0, es, pc) && n < |es| && Acts(es[n])
    ensures exists job: Job :: JobFrom(cfg, call, w0, job) && ActsFor(cfg, job, es[..n], es[n])
  {
    var p := ActingPoint(cfg, call, es, pc, n);
    hide ActsFor;
    hide Step;
    hide Steps;
    assert forall i :: 0 <= i < n ==> es[..n][..i] == es[..i];
    RunIsAt(cfg, call, w0, es[..n], p);
    ActingJob(cfg, call, w0, DoAll(w0, es[..n]), p);
  }

  lemma ActingJob(cfg: Config, call: Call, w0: World, w: World, p: Pc)
    requires At(cfg, call, w0, w, p) && (p.Migrating? || p.Recreating? || p.Undoing? || p.Restarting? || p.Committing?)
    ensures JobFrom(cfg, call, w0, p.job)
  {
    hide JobFrom;
  }

  /** What must be behind `e`, the next command after `es`, if it acts. */
  ghost predicate ActsFor(cfg: Config, job: Job, es: seq<Event>, e: Event) {
    && (e.Migrate? ==> e.images == job.target && PulledIn(cfg, job, es))
    && (e.Up? ==>
       (e.images == job.target && MigratedIn(cfg, job, es))
       || (e.images == job.st.current && RecreatedIn(cfg, job, es)))
    && (e.RestartAll? ==> e.images == job.target && ApprovedIn(cfg, job, es))
    && (e.Rename? ==> Render(cfg, job) == Ok(e.text) && RecreatedIn(cfg, job, es))
  }

  lemma ActingPoint(cfg: Config, call: Call, es: seq<Event>, pc: Pc, n: nat) returns (p: Pc)
    requires Steps(cfg, Reading(call), es) == Some(pc) && n < |es| && Acts(es[n])
    ensures Steps(cfg, Reading(call), es[..n]) == Some(p)
    ensures p.Migrating? || p.Recreating? || p.Undoing? || p.Restarting? || p.Committing?
    ensures p.job.call == call && ActsFor(cfg, p.job, es[..n], es[n])
  {
    StepsReach(cfg, Reading(call), es, n);
    p := Steps(cfg, Reading(call), es[..n]).value;
    RunHasPassed(cfg, call, es[..n], p);
    RunKeepsCall(cfg, call, es[..n], p);
    ActsFrom(cfg, p, es[n]);
    hide Step;
    hide Steps;
    hide PulledIn;
    hide MigratedIn;
    hide RecreatedIn;
    hide ApprovedIn;
  }

  /** A backup of what runs: exit code zero, a report that says ok, and, in
      verify mode, restored. */
  ghost predicate SafelyBackedUp(cfg: Config, running: ImageSet, es: seq<Event>) {
    exists k, v: bool :: 0 <= k < |es| && es[k] == Event.Backup(running, 0, true, v) && (cfg.backupMode == Verify ==> v)
  }

  lemma EarlierBackupCounts(cfg: Config, running: ImageSet, es: seq<Event>, n: nat)
    requires n <= |es| && SafelyBackedUp(cfg, running, es[..n])
    ensures SafelyBackedUp(cfg, running, es)
  {
    var k, v: bool :| 0 <= k < n && es[..n][k] == Event.Backup(running, 0, true, v) && (cfg.backupMode == Verify ==> v);
    assert es[k] == Event.Backup(running, 0, true, v);
  }

  lemma StagesAreBackedUp(cfg: Config, job: Job, es: seq<Event>)
    requires job.call.request.action == Upgrade && cfg.backupMode != Off
    ensures (BackedUpIn(cfg, job, es) || PulledIn(cfg, job, es) || MigratedIn(cfg, job, es)
             || RecreatedIn(cfg, job, es)) ==> SafelyBackedUp(cfg, job.st.current, es)
  {
    hide ApprovedIn;
    forall n: nat | n <= |es| && SafelyBackedUp(cfg, job.st.current, es[..n])
      ensures SafelyBackedUp(cfg, job.st.current, es)
    {
      EarlierBackupCounts(cfg, job.st.current, es, n);
    }
    BackupIsSafe(cfg, job, es);
  }

  lemma BackupIsSafe(cfg: Config, job: Job, es: seq<Event>)
    requires job.call.request.action == Upgrade && cfg.backupMode != Off
    ensures BackedUpIn(cfg, job, es) ==> SafelyBackedUp(cfg, job.st.current, es)
  {
    hide ApprovedIn;
    if BackedUpIn(cfg, job, es) {
      var i :| 0 <= i < |es| && GoodBackup(cfg, job, es[i]) && ApprovedIn(cfg, job, es[..i]);
      assert es[i] == Event.Backup(job.st.current, 0, true, es[i].verified);
    }
  }

  /** Unless backups are off, every upgrade that migrates, recreates or commits
      has such a backup of what ran behind it. */
  lemma NoUpgradeWithoutBackup(cfg: Config, call: Call, w0: World, st: LockState, es: seq<Event>, pc: Pc, n: nat)
    requires RunOf(cfg, call, w0, es, pc) && n < |es| && Acts(es[n]) && cfg.format.read(w0.lock) == Ok(st)
    requires call.request.action == Upgrade && cfg.backupMode != Off
    ensures SafelyBackedUp(cfg, st.current, es[..n])
  {
    hide ActsFor;
    NothingActsEarly(cfg, call, w0, es, pc, n);
    if es[n].RestartAll? {
      RestartsAreRestarts(cfg, call, es, pc, n);
    }
    hide RunOf;
    var job: Job :| JobFrom(cfg, call, w0, job) && ActsFor(cfg, job, es[..n], es[n]);
    BackedUpBefore(cfg, job, es[..n], es[n]);
  }

  lemma BackedUpBefore(cfg: Config, job: Job, es: seq<Event>, e: Event)
    requires ActsFor(cfg, job, es, e) && Acts(e) && !e.RestartAll?
    requires job.call.request.action == Upgrade && cfg.backupMode != Off
    ensures SafelyBackedUp(cfg, job.st.current, es)
  {
    StagesAreBackedUp(cfg, job, es);
    hide SafelyBackedUp;
    hide PulledIn;
    hide MigratedIn;
    hide RecreatedIn;
  }

  lemma RestartsAreRestarts(cfg: Config, call: Call, es: seq<Event>, pc: Pc, n: nat)
    requires Steps(cfg, Reading(call), es) == Some(pc) && n < |es| && es[n].RestartAll?
    ensures call.request.action == Restart
  {
    StepsReach(cfg, Reading(call), es, n);
    var p := Steps(cfg, Reading(call), es[..n]).value;
    RunHasPassed(cfg, call, es[..n], p);
    RunKeepsCall(cfg, call, es[..n], p);
    ActsFrom(cfg, p, es[n]);
    hide Step;
    hide Steps;
  }

  /** The policy was satisfied, by the terminal only if there was one. */
  ghost predicate PolicyMet(call: Call) {
    exists yes: bool :: (yes ==> call.prompt) && Consents(call, yes)
  }

  /** Consent was given among the commands so far. */
  ghost predicate ConsentedIn(call: Call, es: seq<Event>) {
    exists i, yes :: 0 <= i < |es| && es[i] == Confirm(yes) && (yes ==> call.prompt) && Consents(call, yes)
  }

  lemma EarlierConsentCounts(call: Call, es: seq<Event>, n: nat)
    requires n <= |es| && ConsentedIn(call, es[..n])
    ensures ConsentedIn(call, es)
  {
    var i, yes :| 0 <= i < n && es[..n][i] == Confirm(yes) && (yes ==> call.prompt) && Consents(call, yes);
    assert es[i] == Confirm(yes);
  }

  lemma EachStageWasApproved(cfg: Config, job: Job, es: seq<Event>)
    ensures (ApprovedIn(cfg, job, es) || BackedUpIn(cfg, job, es) || PulledIn(cfg, job, es) || MigratedIn(cfg, job, es)
             || RecreatedIn(cfg, job, es)) ==> ConsentedIn(job.call, es)
  {
    hide VerifiedIn;
    forall n: nat | n <= |es| && ConsentedIn(job.call, es[..n]) ensures ConsentedIn(job.call, es) {
      EarlierConsentCounts(job.call, es, n);
    }
  }

  /** Anything that changes the instance, in any run, comes after consent: under
      two people's policy another person's approval, and otherwise an approval
      or a yes from someone at the terminal. */
  lemma ActsOnlyWithConsent(cfg: Config, call: Call, es: seq<Event>, pc: Pc, n: nat)
    requires Steps(cfg, Reading(call), es) == Some(pc) && n < |es| && Acts(es[n])
    ensures ConsentedIn(call, es[..n])
    ensures call.policy == TwoPersonApproval ==>
              exists a :: a in call.request.approvals && a != call.request.requestedBy
    ensures call.policy != TwoPersonApproval && call.request.approvals == [] ==>
              call.prompt && exists i :: 0 <= i < n && es[i] == Confirm(true)
  {
    hide Steps;
    var p := ActingPoint(cfg, call, es, pc, n);
    EachStageWasApproved(cfg, p.job, es[..n]);
    hide ActsFor;
    hide RecreatedIn;
    var i, yes :| 0 <= i < n && es[..n][i] == Confirm(yes) && (yes ==> call.prompt) && Consents(call, yes);
    assert es[i] == Confirm(yes);
  }

  /** Anything that changes the instance, in any run of a console row, has the
      approval that row needed: a second person's, unless it is a restart, or
      the row says `single` and the host sets no floor. */
  lemma ConsoleActsOnlyWhenApproved(cfg: Config, floor: bool, row: Row, runId: string, es: seq<Event>, pc: Pc, n: nat)
    requires ParseRow(row).Some?
    requires Steps(cfg, Reading(ConsoleCall(floor, row, runId)), es) == Some(pc) && n < |es|
    requires Acts(es[n])
    ensures RowApproved(floor, row, ParseRow(row).value.requestedBy)
  {
    var call := ConsoleCall(floor, row, runId);
    ActsOnlyWithConsent(cfg, call, es, pc, n);
    hide Steps;
    ApprovedIsConsent(call, false);
    ConsoleRowPasses(floor, row);
  }

  function ConsoleCall(floor: bool, row: Row, runId: string): Call
    requires ParseRow(row).Some?
  {
    var request := ParseRow(row).value;
    Call(request, PolicyFor(floor, request), runId, false)
  }

  lemma BeforeSuccess(cfg: Config, pc: Pc, e: Event, job: Job)
    requires Step(cfg, pc, e) == Some(Done(Succeeded, Some(job))) && job.call.request.action != Restart
    ensures pc == Syncing(job) && e == SyncDir(true)
  {
  }

  lemma BeforeSyncing(cfg: Config, pc: Pc, e: Event, job: Job)
    requires Step(cfg, pc, e) == Some(Syncing(job))
    ensures pc == Committing(job) && e.Rename? && Render(cfg, job) == Ok(e.text)
  {
  }

  lemma BeforeCommitting(cfg: Config, pc: Pc, e: Event, job: Job)
    requires Step(cfg, pc, e) == Some(Committing(job))
    ensures pc == Healing(job) && e.CheckHealth? && Passes(cfg, job.version, job.db, e.round)
  {
  }

  /** A committed run was seen healthy: one single round passed every check,
      and nothing happened between it and the rewrite of the lock. */
  lemma CommitFollowsOneHealthyRound(cfg: Config, call: Call, es: seq<Event>, job: Job)
    requires Steps(cfg, Reading(call), es) == Some(Done(Succeeded, Some(job))) && job.call.request.action != Restart
    ensures |es| >= 3 && es[|es| - 1] == SyncDir(true) && Render(cfg, job).Ok?
            && es[|es| - 2] == Rename(Render(cfg, job).value)
    ensures es[|es| - 3].CheckHealth? && Passes(cfg, job.version, job.db, es[|es| - 3].round)
  {
    hide Step;
    var n := |es| - 1;
    BeforeSuccess(cfg, Steps(cfg, Reading(call), es[..n]).value, es[n], job);
    assert es[..n][..n - 1] == es[..n - 1] && es[..n][n - 1] == es[n - 1];
    BeforeSyncing(cfg, Steps(cfg, Reading(call), es[..n - 1]).value, es[n - 1], job);
    assert es[..n - 1][..n - 2] == es[..n - 2] && es[..n - 1][n - 2] == es[n - 2];
    BeforeCommitting(cfg, Steps(cfg, Reading(call), es[..n - 2]).value, es[n - 2], job);
  }

  /** A run that says it rolled back saw the old images healthy last. */
  lemma RolledBackIsHealthy(cfg: Config, call: Call, es: seq<Event>, about: Option<Job>)
    requires Steps(cfg, Reading(call), es) == Some(Done(RolledBack, about))
    ensures about.Some? && |es| >= 1 && es[|es| - 1].CheckHealth?
    ensures Passes(cfg, VersionOf(about.value.st.current), None, es[|es| - 1].round)
  {
    var p := Steps(cfg, Reading(call), es[..|es| - 1]).value;
    assert p.UndoHealing?;
  }
}
