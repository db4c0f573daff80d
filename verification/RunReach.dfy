/** Which runs can happen at all: an upgrade or a rollback can succeed exactly
    when nothing that was checked beforehand stands in its way. */
module RunReach {
  import opened Base
  import opened Approval
  import opened RunMachine
  import opened RunOrder
  import opened RunProperties
  import opened RunWords
  import Lockfile
  import Registry
  import Versions

  lemma Extend(cfg: Config, pc: Pc, es: seq<Event>, p: Pc, e: Event, q: Pc)
    requires Steps(cfg, pc, es) == Some(p) && Step(cfg, p, e) == Some(q)
    ensures Steps(cfg, pc, es + [e]) == Some(q)
  {
    hide Step;
    assert (es + [e])[..|es|] == es;
  }

  function Goods(todo: seq<(string, string)>): (es: seq<Event>)
    ensures |es| == |todo| && forall i :: 0 <= i < |es| ==> es[i].Verdict?
  {
    seq(|todo|, i requires 0 <= i < |todo| => Verdict(todo[i].0, todo[i].1, true))
  }

  lemma VerdictStep(cfg: Config, job: Job, todo: seq<(string, string)>)
    requires todo != [] && Pinned(todo[0].1)
    ensures Step(cfg, Verifying(job, todo, true), Verdict(todo[0].0, todo[0].1, true)) ==
            Some(Verifying(job, todo[1..], true))
  {
  }

  lemma {:induction false} AllVerdictsGood(cfg: Config, pc: Pc, es: seq<Event>, job: Job, todo: seq<(string, string)>)
    requires Steps(cfg, pc, es) == Some(Verifying(job, todo, true)) && forall k :: 0 <= k < |todo| ==> Pinned(todo[k].1)
    ensures Steps(cfg, pc, es + Goods(todo)) == Some(Verifying(job, [], true))
    decreases |todo|
  {
    hide Step;
    hide Steps;
    if todo == [] {
      assert es + Goods(todo) == es;
    } else {
      var e := Verdict(todo[0].0, todo[0].1, true);
      VerdictStep(cfg, job, todo);
      Extend(cfg, pc, es, Verifying(job, todo, true), e, Verifying(job, todo[1..], true));
      AllVerdictsGood(cfg, pc, es + [e], job, todo[1..]);
      assert es + Goods(todo) == es + [e] + Goods(todo[1..]);
    }
  }

  /** Verdicts can all be good once both references are pinned. */
  predicate CanVerify(cfg: Config, images: ImageSet) {
    cfg.insecure || (Pinned(images.backend) && Pinned(images.frontend))
  }

  lemma AllCanPass(cfg: Config, images: ImageSet)
    requires CanVerify(cfg, images)
    ensures forall k :: 0 <= k < |ToVerify(cfg, images)| ==> Pinned(ToVerify(cfg, images)[k].1)
  {
  }

  /** Only the first command reads the lock. */
  predicate ReadsOnce(es: seq<Event>, text: string) {
    |es| > 0 && es[0] == ReadLock(text) && forall i :: 0 < i < |es| ==> !es[i].ReadLock?
  }

  lemma ReadOnceIsFaithful(w0: World, es: seq<Event>)
    requires ReadsOnce(es, w0.lock)
    ensures Faithful(w0, es)
  {
    assert es[..0] == [];
  }

  lemma FirstStep(cfg: Config, call: Call, text: string, p: Pc)
    requires Step(cfg, Reading(call), ReadLock(text)) == Some(p)
    ensures Steps(cfg, Reading(call), [ReadLock(text)]) == Some(p)
  {
    Extend(cfg, Reading(call), [], Reading(call), ReadLock(text), p);
    assert [] + [ReadLock(text)] == [ReadLock(text)];
  }

  // ---- the parts of a run in which every command succeeds ------------------

  lemma UpgradeSteps(cfg: Config, call: Call, text: string, job: Job)
    requires call.request.action == Upgrade && cfg.format.read(text) == Ok(job.st) && job.release.Some?
    requires Admissible(cfg, call, job.st, job.release.value)
    requires var rel := job.release.value;
             job == Job(call, job.st, ImagesFor(rel), rel.version, rel.dbRevision, Some(rel), job.health)
    ensures Step(cfg, Reading(call), ReadLock(text)) == Some(Resolving(call, job.st))
    ensures Step(cfg, Resolving(call, job.st), Resolve(job.release)) == Some(Probing(call, job.st, job.release.value))
    ensures Step(cfg, Probing(call, job.st, job.release.value), Quick(job.health)) ==
            Some(Verifying(job, ToVerify(cfg, job.target), true))
  {
  }

  lemma PreparingSteps(cfg: Config, job: Job, yes: bool)
    requires (yes ==> job.call.prompt)
             && Consents(job.call, yes)
    ensures Step(cfg, Confirming(job), Confirm(yes)) == Some(AfterConfirm(cfg, job))
    ensures job.release.Some? && PreflightPasses(cfg, job, true, true, true) ==>
              Step(cfg, Verifying(job, [], true), Preflight(true, true)) == Some(Confirming(job))
    ensures Step(cfg, BackingUp(job), Event.Backup(job.st.current, 0, true, true)) == Some(Pulling(job))
  {
    ApprovedIsConsent(job.call, yes);
    hide Approved;
    hide Consents;
  }

  /** An upgrade from its start to the pull. */
  lemma UpgradeToPull(cfg: Config, call: Call, text: string, job: Job, yes: bool) returns (es: seq<Event>)
    requires call.request.action == Upgrade && cfg.format.read(text) == Ok(job.st) && job.release.Some?
    requires Admissible(cfg, call, job.st, job.release.value) && PreflightPasses(cfg, job, true, true, true)
    requires var rel := job.release.value;
             job == Job(call, job.st, ImagesFor(rel), rel.version, rel.dbRevision, Some(rel), job.health)
    requires (yes ==> call.prompt) && Consents(call, yes)
    ensures Steps(cfg, Reading(call), es) == Some(Pulling(job)) && ReadsOnce(es, text)
  {
    hide Step;
    hide Steps;
    hide Admissible;
    AllCanPass(cfg, job.target);
    hide PreflightPasses;
    var begin, st, rel := Reading(call), job.st, job.release.value;
    UpgradeSteps(cfg, call, text, job);
    PreparingSteps(cfg, job, yes);
    FirstStep(cfg, call, text, Resolving(call, st));
    es := [ReadLock(text)];
    Extend(cfg, begin, es, Resolving(call, st), Resolve(Some(rel)), Probing(call, st, rel));
    es := es + [Resolve(Some(rel))];
    Extend(cfg, begin, es, Probing(call, st, rel), Quick(job.health), Verifying(job, ToVerify(cfg, job.target), true));
    es := es + [Quick(job.health)];
    AllVerdictsGood(cfg, begin, es, job, ToVerify(cfg, job.target));
    es := es + Goods(ToVerify(cfg, job.target));
    Extend(cfg, begin, es, Verifying(job, [], true), Preflight(true, true), Confirming(job));
    es := es + [Preflight(true, true)];
    Extend(cfg, begin, es, Confirming(job), Confirm(yes), AfterConfirm(cfg, job));
    es := es + [Confirm(yes)];
    if cfg.backupMode != Off {
      Extend(cfg, begin, es, BackingUp(job), Event.Backup(st.current, 0, true, true), Pulling(job));
      es := es + [Event.Backup(st.current, 0, true, true)];
    }
  }

  lemma RollbackSteps(cfg: Config, call: Call, text: string, job: Job)
    requires call.request.action == Rollback && cfg.format.read(text) == Ok(job.st)
             && job.st.previous == Some(job.target)
    requires job == Job(call, job.st, job.target, job.target.ExpectedVersion(), None, None, None)
    ensures Step(cfg, Reading(call), ReadLock(text)) == Some(Verifying(job, ToVerify(cfg, job.target), true))
    ensures Step(cfg, Verifying(job, [], true), Quick(None)) == Some(ProbingBack(job, true))
    ensures Step(cfg, ProbingBack(job, true), Stamp(None)) == Some(Confirming(job))
  {
  }

  /** A rollback from its start to the pull. */
  lemma RollbackToPull(cfg: Config, call: Call, text: string, job: Job, yes: bool) returns (es: seq<Event>)
    requires call.request.action == Rollback && cfg.format.read(text) == Ok(job.st)
             && job.st.previous == Some(job.target)
    requires job == Job(call, job.st, job.target, job.target.ExpectedVersion(), None, None, None)
    requires CanVerify(cfg, job.target)
    requires (yes ==> call.prompt) && Consents(call, yes)
    ensures Steps(cfg, Reading(call), es) == Some(Pulling(job)) && ReadsOnce(es, text)
  {
    hide Step;
    hide Steps;
    AllCanPass(cfg, job.target);
    var begin, todo := Reading(call), ToVerify(cfg, job.target);
    RollbackSteps(cfg, call, text, job);
    PreparingSteps(cfg, job, yes);
    FirstStep(cfg, call, text, Verifying(job, todo, true));
    es := [ReadLock(text)];
    AllVerdictsGood(cfg, begin, es, job, todo);
    es := es + Goods(todo);
    Extend(cfg, begin, es, Verifying(job, [], true), Quick(None), ProbingBack(job, true));
    es := es + [Quick(None)];
    Extend(cfg, begin, es, ProbingBack(job, true), Stamp(None), Confirming(job));
    es := es + [Stamp(None)];
    Extend(cfg, begin, es, Confirming(job), Confirm(yes), Pulling(job));
    es := es + [Confirm(yes)];
  }

  /** A round that passes every check. */
  function GoodRound(job: Job): Round {
    Round(Some(Health(Some(job.version), job.db)), 200, 200, true, true, true)
  }

  lemma ActingSteps(cfg: Config, job: Job)
    requires job.call.request.action != Restart
    ensures Step(cfg, Pulling(job), Pull(job.target, true)) == Some(AfterPull(job))
    ensures Step(cfg, Migrating(job), Migrate(job.target, job.call.request.allowDestructive, 0, "")) ==
            Some(Recreating(job))
    ensures Step(cfg, Recreating(job), Up(job.target, true, AllOn(job.target), "")) == Some(Healing(job))
    ensures Step(cfg, Healing(job), CheckHealth(GoodRound(job), false)) == Some(Committing(job))
  {
  }

  lemma PullToCommit(cfg: Config, begin: Pc, es: seq<Event>, job: Job) returns (more: seq<Event>)
    requires Steps(cfg, begin, es) == Some(Pulling(job)) && job.call.request.action != Restart
    ensures Steps(cfg, begin, more) == Some(Committing(job)) && es <= more
    ensures forall i :: |es| <= i < |more| ==> !more[i].ReadLock?
  {
    hide Step;
    hide Steps;
    ActingSteps(cfg, job);
    var pull := Pull(job.target, true);
    Extend(cfg, begin, es, Pulling(job), pull, AfterPull(job));
    more := es + [pull];
    if AfterPull(job) == Migrating(job) {
      var migrate := Migrate(job.target, job.call.request.allowDestructive, 0, "");
      Extend(cfg, begin, more, Migrating(job), migrate, Recreating(job));
      more := more + [migrate];
    }
    var up := Up(job.target, true, AllOn(job.target), "");
    Extend(cfg, begin, more, Recreating(job), up, Healing(job));
    more := more + [up];
    Extend(cfg, begin, more, Healing(job), CheckHealth(GoodRound(job), false), Committing(job));
    more := more + [CheckHealth(GoodRound(job), false)];
  }

  lemma CommitSteps(cfg: Config, job: Job)
    requires job.call.request.action != Restart && Render(cfg, job).Ok?
    ensures Step(cfg, Committing(job), Rename(Render(cfg, job).value)) == Some(Syncing(job))
    ensures Step(cfg, Syncing(job), SyncDir(true)) == Some(Done(Succeeded, Some(job)))
  {
  }

  lemma PullToSuccess(cfg: Config, call: Call, w0: World, es: seq<Event>, job: Job) returns (more: seq<Event>)
    requires Steps(cfg, Reading(call), es) == Some(Pulling(job)) && ReadsOnce(es, w0.lock)
    requires job.call.request.action != Restart && Render(cfg, job).Ok?
    ensures RunOf(cfg, call, w0, more, Done(Succeeded, Some(job)))
  {
    hide Step;
    hide Steps;
    more := PullToCommit(cfg, Reading(call), es, job);
    CommitSteps(cfg, job);
    var rename := Rename(Render(cfg, job).value);
    Extend(cfg, Reading(call), more, Committing(job), rename, Syncing(job));
    more := more + [rename];
    Extend(cfg, Reading(call), more, Syncing(job), SyncDir(true), Done(Succeeded, Some(job)));
    more := more + [SyncDir(true)];
    ReadOnceIsFaithful(w0, more);
  }

  // ---- exactly when a run can succeed --------------------------------------

  /** What a caller can look at beforehand: the release, the lock and who
      approved. */
  ghost predicate CanUpgrade(cfg: Config, call: Call, st: LockState, rel: Release) {
    var after := Lockfile.LockState(ImagesFor(rel), Some(st.current), st.extra);
    && (rel.backendRef, rel.frontendRef) != (st.current.backend, st.current.frontend)
    && (call.request.allowDowngrade || !Versions.IsDowngrade(rel.version, st.current.ExpectedVersion()))
    && (Given(rel.frontendVersion) ==> rel.frontendVersion.value == rel.version) && PolicyMet(call)
    && cfg.format.render(after, "").Ok? && cfg.format.render(after, call.request.tag + " via run " + call.runId).Ok?
  }

  lemma SucceededWasChecked(cfg: Config, call: Call, w0: World, es: seq<Event>, job: Job)
    requires RunOf(cfg, call, w0, es, Done(Succeeded, Some(job))) && call.request.action != Restart
    ensures JobFrom(cfg, call, w0, job) && PolicyMet(call) && Render(cfg, job).Ok? && CanVerify(cfg, job.target)
    ensures job.release.Some? ==> Ready(cfg, job.target, job.release.value, job.health)
  {
    OutcomeDeterminesWorld(cfg, call, w0, es, Succeeded, Some(job));
    CommitFollowsOneHealthyRound(cfg, call, es, job);
    hide Steps;
    RenamedAfterChecks(cfg, call, es, job);
  }

  lemma RenamedAfterChecks(cfg: Config, call: Call, es: seq<Event>, job: Job)
    requires Steps(cfg, Reading(call), es) == Some(Done(Succeeded, Some(job))) && job.call == call
             && call.request.action != Restart
    ensures PolicyMet(call) && CanVerify(cfg, job.target)
    ensures job.release.Some? ==> Ready(cfg, job.target, job.release.value, job.health)
  {
    hide Step;
    var n := |es| - 1;
    BeforeSuccess(cfg, Steps(cfg, Reading(call), es[..n]).value, es[n], job);
    assert es[..n][..n - 1] == es[..n - 1] && es[..n][n - 1] == es[n - 1];
    BeforeSyncing(cfg, Steps(cfg, Reading(call), es[..n - 1]).value, es[n - 1], job);
    RunHasPassed(cfg, call, es[..n - 1], Committing(job));
    hide Steps;
    hide Ready;
    hide CanVerify;
    EachStageWasApproved(cfg, job, es[..n - 1]);
    RecreatedMeansVerified(cfg, job, es[..n - 1]);
    hide PolicyMet;
    hide RecreatedIn;
  }

  lemma RecreatedMeansVerified(cfg: Config, job: Job, es: seq<Event>)
    requires RecreatedIn(cfg, job, es) && job.call.request.action != Restart
    ensures CanVerify(cfg, job.target) && (job.release.Some? ==> Ready(cfg, job.target, job.release.value, job.health))
  {
  }

  /** An upgrade that nothing stands in the way of gets as far as the pull; if the
      instance says nothing of its schema, a migration is then due. */
  lemma FittingUpgradeToPull(cfg: Config, call: Call, text: string, st: LockState, rel: Release)
    returns (job: Job, es: seq<Event>)
    requires call.request.action == Upgrade && cfg.format.read(text) == Ok(st) && Fits(rel, call.request.tag)
    requires CanUpgrade(cfg, call, st, rel)
    ensures job == Job(call, st, ImagesFor(rel), rel.version, rel.dbRevision, Some(rel), Some(Health(None, None)))
    ensures Steps(cfg, Reading(call), es) == Some(Pulling(job)) && ReadsOnce(es, text)
            && AfterPull(job) == Migrating(job)
    ensures Render(cfg, job).Ok?
  {
    assert Pinned(rel.backendRef) && Pinned(rel.frontendRef);
    hide Fits;
    hide Pinned;
    hide Versions.IsDowngrade;
    hide Steps;
    job := Job(call, st, ImagesFor(rel), rel.version, rel.dbRevision, Some(rel), Some(Health(None, None)));
    var yes: bool :| (yes ==> call.prompt) && Consents(call, yes);
    es := UpgradeToPull(cfg, call, text, job, yes);
  }

  lemma FittingUpgradeSucceedsIff(cfg: Config, call: Call, w0: World, st: LockState, rel: Release)
    requires call.request.action == Upgrade && cfg.format.read(w0.lock) == Ok(st) && Fits(rel, call.request.tag)
    ensures (exists es, job: Job ::
               job.release == Some(rel) && RunOf(cfg, call, w0, es, Done(Succeeded, Some(job)))) <==>
            CanUpgrade(cfg, call, st, rel)
  {
    assert Pinned(rel.backendRef) && Pinned(rel.frontendRef);
    hide Fits;
    hide Pinned;
    hide Versions.IsDowngrade;
    hide Steps;
    if es, job: Job :| job.release == Some(rel) && RunOf(cfg, call, w0, es, Done(Succeeded, Some(job))) {
      SucceededWasChecked(cfg, call, w0, es, job);
    }
    if CanUpgrade(cfg, call, st, rel) {
      var job, es := FittingUpgradeToPull(cfg, call, w0.lock, st, rel);
      es := PullToSuccess(cfg, call, w0, es, job);
      assert job.release == Some(rel) && RunOf(cfg, call, w0, es, Done(Succeeded, Some(job)));
    }
  }

  /** An upgrade to what its tag resolved to, by any answers of the registry, can
      end in success exactly when that is not what already runs nor, unless
      allowed, an older version; its two images carry one version; the policy
      can be met; and the lock can hold the result. */
  lemma UpgradeSucceedsIff(cfg: Config, call: Call, w0: World, st: LockState, c: Registry.Codec,
      at: Registry.Location, a: Registry.Answers)
    requires call.request.action == Upgrade && cfg.format.read(w0.lock) == Ok(st)
    requires Registry.Resolve(c, at, call.request.tag, a).Ok?
    ensures var rel := Registry.Resolve(c, at, call.request.tag, a).value.AsRelease();
      (exists es, job: Job :: job.release == Some(rel) && RunOf(cfg, call, w0, es, Done(Succeeded, Some(job)))) <==>
      CanUpgrade(cfg, call, st, rel)
  {
    Registry.ResolvedFits(c, at, call.request.tag, a);
    FittingUpgradeSucceedsIff(cfg, call, w0, st, Registry.Resolve(c, at, call.request.tag, a).value.AsRelease());
  }

  /** A rollback can end in success exactly when the lock names a way back whose
      images can be verified, its values can be written again, and the policy
      can be met. */
  lemma RollbackSucceedsIff(cfg: Config, call: Call, w0: World, st: LockState)
    requires call.request.action == Rollback && cfg.format.read(w0.lock) == Ok(st)
    ensures (exists es, job: Job :: RunOf(cfg, call, w0, es, Done(Succeeded, Some(job)))) <==>
            st.previous.Some? && CanVerify(cfg, st.previous.value) && PolicyMet(call)
            && cfg.format.render(Lockfile.LockState(st.previous.value, Some(st.current), st.extra),
                                 "rollback to " + st.previous.value.version + " via run " + call.runId).Ok?
  {
    if es, job: Job :| RunOf(cfg, call, w0, es, Done(Succeeded, Some(job))) {
      SucceededWasChecked(cfg, call, w0, es, job);
    }
    if st.previous.Some? && CanVerify(cfg, st.previous.value) && PolicyMet(call) {
      var target := st.previous.value;
      var job := Job(call, st, target, target.ExpectedVersion(), None, None, None);
      var yes: bool :| (yes ==> call.prompt) && Consents(call, yes);
      if Render(cfg, job).Ok? {
        var es := RollbackToPull(cfg, call, w0.lock, job, yes);
        es := PullToSuccess(cfg, call, w0, es, job);
        assert RunOf(cfg, call, w0, es, Done(Succeeded, Some(job)));
      }
    }
  }
}
