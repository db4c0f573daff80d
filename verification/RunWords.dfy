/** The decisions of a run in their own fields: what a healthy round is, who may
    consent, what a preflight asks. */
module RunWords {
  import opened Base
  import opened Approval
  import opened RunMachine
  import Lockfile
  import Text
  import Versions

  predicate Given(s: Option<string>) {
    s.Some? && s.value != ""
  }

  /** What an instance running `images` reports: its app version, or else its tag. */
  function VersionOf(images: ImageSet): string {
    if Given(images.appVersion) then images.appVersion.value else images.version
  }

  /** The instance answers with the version and revision wanted, both pages with
      200, and inside the containers the ping and both self-checks succeed,
      where they are asked for. */
  predicate Passes(cfg: Config, version: string, db: Option<string>, r: Round) {
    && r.quick.Some?
    && (version != "" ==>
          r.quick.value.version.Some? && Versions.Norm(r.quick.value.version.value) == Versions.Norm(version))
    && (Given(db) ==> r.quick.value.dbRevision == db)
    && r.root == 200 && r.services == 200
    && (cfg.workerPing ==> r.ping)
    && (cfg.selfcheck ==> r.backendCheck && r.workerCheck)
  }

  /** Two people need another's name; otherwise a yes at the terminal or any
      approval will do. */
  predicate Consents(call: Call, yes: bool) {
    if call.policy == TwoPersonApproval then
      exists a :: a in call.request.approvals && a != call.request.requestedBy
    else yes || call.request.approvals != []
  }

  /** A reference is pinned when it has an image, a digest, and `@sha256:` between. */
  lemma PinnedReads(ref: string)
    ensures Pinned(ref) <==> exists image: string, hex: string :: ref == image + "@sha256:" + hex
  {
    var mark := "@sha256:";
    if i :| 0 <= i <= |ref| && Text.OccursAt(mark, ref, i) {
      assert ref == ref[..i] + mark + ref[i + |mark|..];
    }
    if image: string, hex: string :| ref == image + "@sha256:" + hex {
      assert ref[|image|..|image| + |mark|] == mark;
      assert Text.OccursAt(mark, ref, |image|);
    }
  }

  /** The instance is reachable, and the revision it reports, if it and the
      window's lower end are named, is one of the window's ends; the two images
      carry one version; both are pinned where signatures are checked. */
  predicate Ready(cfg: Config, images: ImageSet, rel: Release, health: Option<Health>) {
    && health.Some?
    && (Given(health.value.dbRevision) && Given(rel.minDbRevision) ==>
          health.value.dbRevision == rel.minDbRevision || health.value.dbRevision == rel.dbRevision)
    && (Given(rel.frontendVersion) && rel.version != "" ==> rel.frontendVersion.value == rel.version)
    && (!cfg.insecure ==> Pinned(images.backend) && Pinned(images.frontend))
  }

  /** The verdict and the sentence beside it. */
  lemma ReasonReads(db: Option<string>, min: Option<string>, health: Option<Health>)
    ensures var (ok, why) := Compatibility(db, min, health);
      && (why.NotReached? <==> health.None?) && (why.NotReached? ==> !ok)
      && (health.Some? ==>
            var observed := health.value.dbRevision;
            && (why.NoMinimum? <==> !Given(min)) && (why.NoneReported? <==> Given(min) && !Given(observed))
            && (why.Outside? <==> Given(min) && Given(observed) && observed != min && observed != db)
            && (ok <==> !why.Outside?))
      && (why.Outside? || why.Inside? ==>
            health.value.dbRevision == Some(why.observed) && min == Some(why.min) && db == why.db)
      && (why.NoMinimum? ==> why.reported == health.value.dbRevision)
  {
  }

  lemma ServingIsPassing(cfg: Config, version: string, db: Option<string>, r: Round)
    ensures Serving(cfg, version, db, r) <==> Passes(cfg, version, db, r)
  {
  }

  lemma ApprovedIsConsent(call: Call, yes: bool)
    ensures Approved(call.policy, call.request.requestedBy, Approvals(call, yes)) <==> Consents(call, yes)
  {
    OthersAreOthers(call.request.requestedBy, Approvals(call, yes));
  }

  lemma PreflightIsReady(cfg: Config, job: Job, files: bool, disk: bool, passed: bool)
    requires job.release.Some?
    ensures PreflightPasses(cfg, job, files, disk, passed) <==>
            files && disk && passed && Ready(cfg, job.target, job.release.value, job.health)
  {
  }
}
