/** Runs against the real lock file format: what a committed file reads back
    as, and when the console's word "refused" can be trusted after a rollback. */
module RunText {
  import opened Base
  import opened Approval
  import opened RunMachine
  import opened RunProperties
  import opened RunWords
  import opened RunOrder
  import opened RunReach
  import Lockfile
  import Text
  import Versions

  /** What the file reads back as once the job has been recorded: its images,
      without the newlines `$` lets through, the replaced ones as the way back,
      and everything else. A tag that ends in a newline breaks the header in
      two, and then nothing can be read at all. */
  function Recorded(job: Job): Result<LockState, Lockfile.LockError> {
    if '\n' in job.target.version then Err(Lockfile.Unparseable)
    else Ok(Lockfile.LockState(Lockfile.ChompImages(job.target), Some(job.st.current), job.st.extra))
  }

  /** A finished upgrade or rollback leaves a lock that reads as its new images,
      with the images it replaced as the way back, and everything else kept;
      an upgrade from the console never names an older version. */
  lemma CommittedLockReads(cfg: Config, call: Call, w0: World, es: seq<Event>, job: Job)
    requires cfg.format == LOCK_TEXT && call.request.action != Restart && IsRunId(call.runId)
    requires RunOf(cfg, call, w0, es, Done(Succeeded, Some(job)))
    ensures Lockfile.Read(w0.lock) == Ok(job.st) && Lockfile.Read(DoAll(w0, es).lock) == Recorded(job)
    ensures DoAll(w0, es).running == AllOn(job.target)
    ensures call.request.action == Rollback ==>
            job.st.previous == Some(job.target) && Recorded(job) == Ok(NewState(job))
    ensures call.request.action == Upgrade && !call.request.allowDowngrade ==>
              !Versions.IsDowngrade(job.target.ExpectedVersion(), job.st.current.ExpectedVersion())
  {
    OutcomeDeterminesWorld(cfg, call, w0, es, Succeeded, Some(job));
    RenderedReads(cfg, call, w0, job);
  }

  lemma RunIdIsPlain(id: string)
    requires IsRunId(id)
    ensures Text.NoBreaks(" via run " + id)
  {
    assert forall i :: 0 <= i < |id| ==> id[i] in "0123456789abcdef" || '0' <= id[i] <= 'f';
    assert Text.NoBreaks(id) && Text.NoBreaks(" via run ");
    Concat(" via run ", id);
  }

  /** Alone on a line, the end of a header is no pair: after its first word
      comes another. */
  lemma TailIsNoPair(id: string)
    ensures Lockfile.ParseLine(" via run " + id) == Lockfile.Bad
  {
    var word, rest := "via", " run " + id;
    var s := word + rest;
    assert " via run " + id == " " + s;
    assert (" " + s)[1..] == s && s[0] == word[0] == 'v' && s[..3] == word && s[3..] == rest;
    Lockfile.LStripKeeps(s);
    assert Text.LStrip(" " + s) == s;
    Lockfile.KeyLengthOf(word, rest);
    hide Lockfile.KeyLength;
    assert rest[1..] == "run " + id && rest[1..][0] == 'r';
    Lockfile.LStripKeeps(rest[1..]);
    assert Text.LStrip(rest) == rest[1..];
    hide Text.LStrip;
    assert Lockfile.MatchPair(s) == Lockfile.Bad;
    assert |s| > 6 ==> s[..6][0] == 'v' && "export"[0] == 'e';
  }

  /** Chomping leaves a pinned reference, a tag and a version that names it non-empty. */
  lemma FittingStaysWellFormed(rel: Release, tag: string)
    requires Fits(rel, tag)
    ensures ImagesFor(rel).WellFormed() && Lockfile.ChompImages(ImagesFor(rel)).WellFormed()
  {
    PinnedIsLong(rel.backendRef);
    PinnedIsLong(rel.frontendRef);
    assert IsTagChar(tag[0]);
    VersionNamesSomething(rel.version, tag);
  }

  lemma PinnedIsLong(ref: string)
    requires Pinned(ref)
    ensures |ref| >= 8
  {
    var i :| 0 <= i <= |ref| && Text.OccursAt("@sha256:", ref, i);
  }

  lemma VersionNamesSomething(version: string, tag: string)
    requires ValidTag(tag) && Versions.Norm(version) == Versions.Norm(tag)
    ensures Lockfile.Chomp(version) != ""
  {
    assert IsTagChar(tag[0]);
    Lockfile.StripKeepsStart(tag);
    assert Text.LStrip("\n") == Text.LStrip("") == "";
    assert Versions.Norm("\n") == "" && Versions.Norm("") == "";
    assert Lockfile.Chomp(version) == "" ==> version == "" || version == "\n";
  }

  lemma TagBreaks(tag: string)
    requires ValidTag(tag)
    ensures '\n' !in tag ==> Text.NoBreaks(tag)
    ensures '\n' in tag ==> tag == Lockfile.Chomp(tag) + "\n" && Text.NoBreaks(Lockfile.Chomp(tag))
  {
    if !PlainTag(tag) {
      assert tag == tag[..|tag| - 1] + "\n";
      assert tag[|tag| - 1] in tag;
    } else {
      assert forall i :: 0 <= i < |tag| ==> IsTagChar(tag[i]);
    }
  }

  lemma PlainImagesStay(images: ImageSet)
    requires images.Holds(Lockfile.HasNoNewline)
    ensures Lockfile.ChompImages(images) == images
  {
  }

  lemma UpgradeReads(cfg: Config, call: Call, w0: World, job: Job)
    requires cfg.format == LOCK_TEXT && JobFrom(cfg, call, w0, job) && call.request.action == Upgrade
    requires IsRunId(call.runId) && Render(cfg, job).Ok?
    ensures Lockfile.Read(Render(cfg, job).value) == Recorded(job)
  {
    var st, header := NewState(job), Header(job);
    var tag, tail := call.request.tag, " via run " + call.runId;
    Lockfile.ReadIsClean(w0.lock);
    FittingStaysWellFormed(job.release.value, tag);
    PlainImagesStay(job.st.current);
    assert Lockfile.Chomped(st) ==
           Lockfile.LockState(Lockfile.ChompImages(job.target), Some(job.st.current), job.st.extra);
    Lockfile.RendersIffSafe(st, header);
    TagBreaks(tag);
    RunIdIsPlain(call.runId);
    hide Lockfile.Read;
    hide Lockfile.Render;
    hide Lockfile.ParseLine;
    if '\n' in tag {
      assert header == Lockfile.Chomp(tag) + "\n" + tail;
      TailIsNoPair(call.runId);
      Lockfile.BrokenHeaderIsUnreadable(st, Lockfile.Chomp(tag), tail);
    } else {
      assert header == tag + tail;
      Lockfile.ReadsBackChomped(st, header);
    }
  }

  lemma RollbackReads(cfg: Config, call: Call, w0: World, job: Job)
    requires cfg.format == LOCK_TEXT && JobFrom(cfg, call, w0, job) && call.request.action == Rollback
    requires IsRunId(call.runId) && Render(cfg, job).Ok?
    ensures Lockfile.Read(Render(cfg, job).value) == Recorded(job) == Ok(NewState(job))
  {
    var st, header := NewState(job), Header(job);
    Lockfile.ReadIsClean(w0.lock);
    PlainImagesStay(job.target);
    Lockfile.RendersIffSafe(st, header);
    RollbackHeader(job.target.version, call.runId);
    hide Lockfile.Read;
    hide Lockfile.Render;
    hide Text.NoBreaks;
    Lockfile.WrittenIsRead(st, header);
  }

  lemma RollbackHeader(version: string, id: string)
    requires Lockfile.IsSafeValue(version) && Lockfile.HasNoNewline(version) && IsRunId(id)
    ensures Text.NoBreaks("rollback to " + version + " via run " + id)
  {
    var head, tail := "rollback to ", " via run " + id;
    assert Lockfile.AllSafe(version);
    assert forall i :: 0 <= i < |version| ==> Lockfile.IsSafeChar(version[i]);
    RunIdIsPlain(id);
    assert Text.NoBreaks(head) && Text.NoBreaks(version);
    assert head + version + " via run " + id == head + version + tail;
    Concat(head, version);
    Concat(head + version, tail);
  }

  lemma Concat(a: string, b: string)
    requires Text.NoBreaks(a) && Text.NoBreaks(b)
    ensures Text.NoBreaks(a + b)
  {
  }

  /** Whatever a job renders, the file reads back as recorded. */
  lemma RenderedReads(cfg: Config, call: Call, w0: World, job: Job)
    requires cfg.format == LOCK_TEXT && JobFrom(cfg, call, w0, job) && call.request.action != Restart
    requires IsRunId(call.runId) && Render(cfg, job).Ok?
    ensures Lockfile.Read(Render(cfg, job).value) == Recorded(job)
    ensures call.request.action == Rollback ==> Recorded(job) == Ok(NewState(job))
  {
    hide Lockfile.Read;
    hide Lockfile.Render;
    if call.request.action == Upgrade {
      UpgradeReads(cfg, call, w0, job);
    } else {
      RollbackReads(cfg, call, w0, job);
    }
  }

  /** Two runs in a row: the second starts in the world the first left. */
  ghost predicate TwoRuns(cfg: Config, call1: Call, call2: Call, w0: World, es1: seq<Event>, es2: seq<Event>,
      job1: Job, job2: Job) {
    && RunOf(cfg, call1, w0, es1, Done(Succeeded, Some(job1))) && IsRunId(call1.runId)
    && RunOf(cfg, call2, DoAll(w0, es1), es2, Done(Succeeded, Some(job2))) && IsRunId(call2.runId)
  }

  /** A rollback after an upgrade runs what ran before and says so: the images
      the lock named at the start are current again, extras and all, and the
      upgrade's images are the way back. */
  lemma RollbackAfterUpgrade(cfg: Config, call1: Call, call2: Call, w0: World, es1: seq<Event>, es2: seq<Event>,
      job1: Job, job2: Job)
    requires cfg.format == LOCK_TEXT && TwoRuns(cfg, call1, call2, w0, es1, es2, job1, job2)
    requires call1.request.action == Upgrade && call2.request.action == Rollback
    ensures Lockfile.Read(w0.lock) == Ok(job1.st) && job2.target == job1.st.current
    ensures var w2 := DoAll(DoAll(w0, es1), es2);
      && w2.running == AllOn(job1.st.current)
      && Lockfile.Read(w2.lock) ==
         Ok(Lockfile.LockState(job1.st.current, Some(Lockfile.ChompImages(job1.target)), job1.st.extra))
  {
    hide RunOf;
    hide DoAll;
    hide Lockfile.Read;
    hide Versions.IsDowngrade;
    CommittedLockReads(cfg, call1, w0, es1, job1);
    CommittedLockReads(cfg, call2, DoAll(w0, es1), es2, job2);
  }

  /** Two rollbacks are the identity, on the lock and on what runs. */
  lemma TwoRollbacks(cfg: Config, call1: Call, call2: Call, w0: World, es1: seq<Event>, es2: seq<Event>, job1: Job,
      job2: Job)
    requires cfg.format == LOCK_TEXT && TwoRuns(cfg, call1, call2, w0, es1, es2, job1, job2)
    requires call1.request.action == Rollback && call2.request.action == Rollback
    ensures Lockfile.Read(w0.lock) == Ok(job1.st)
    ensures var w2 := DoAll(DoAll(w0, es1), es2);
      Lockfile.Read(w2.lock) == Lockfile.Read(w0.lock) && w2.running == AllOn(job1.st.current)
  {
    hide RunOf;
    hide DoAll;
    hide Lockfile.Read;
    hide Versions.IsDowngrade;
    CommittedLockReads(cfg, call1, w0, es1, job1);
    CommittedLockReads(cfg, call2, DoAll(w0, es1), es2, job2);
  }

  // ---- what poll reports -------------------------------------------------

  /** `poll` reports a raised lock error as "refused; nothing changed". */
  function PollWord(outcome: Outcome): Outcome {
    if outcome == LockFileRaised then Refused else outcome
  }

  ghost predicate RefusedIsHarmless(cfg: Config, call: Call, text: string) {
    forall w0: World, es, outcome, about ::
      w0.lock == text && RunOf(cfg, call, w0, es, Done(outcome, about)) && PollWord(outcome) == Refused ==>
          DoAll(w0, es) == w0
  }

  /** For upgrades and restarts "refused" always means nothing changed. */
  lemma RefusedUpgradeIsHarmless(cfg: Config, call: Call, text: string)
    requires call.request.action != Rollback
    ensures RefusedIsHarmless(cfg, call, text)
  {
    forall w0: World, es, outcome, about |
      w0.lock == text && RunOf(cfg, call, w0, es, Done(outcome, about)) && PollWord(outcome) == Refused
      ensures DoAll(w0, es) == w0
    {
      OutcomeDeterminesWorld(cfg, call, w0, es, outcome, about);
    }
  }

  /** A rollback in which every command succeeds, up to a lock that cannot be rendered. */
  lemma UnwritableRun(cfg: Config, call: Call, w0: World, job: Job, yes: bool) returns (es: seq<Event>)
    requires call.request.action == Rollback && cfg.format.read(w0.lock) == Ok(job.st)
             && job.st.previous == Some(job.target)
    requires job == Job(call, job.st, job.target, job.target.ExpectedVersion(), None, None, None)
    requires CanVerify(cfg, job.target)
    requires (yes ==> call.prompt) && Consents(call, yes)
    requires Render(cfg, job).Err?
    ensures RunOf(cfg, call, w0, es, Done(LockFileRaised, Some(job)))
  {
    hide Steps;
    var pulling := RollbackToPull(cfg, call, w0.lock, job, yes);
    var committing := PullToCommit(cfg, Reading(call), pulling, job);
    UnwrittenStep(cfg, job);
    Extend(cfg, Reading(call), committing, Committing(job), Unwritten, Done(LockFileRaised, Some(job)));
    es := committing + [Unwritten];
    ReadOnceIsFaithful(w0, es);
  }

  lemma UnwrittenStep(cfg: Config, job: Job)
    requires job.call.request.action == Rollback && Render(cfg, job).Err?
    ensures Step(cfg, Committing(job), Unwritten) == Some(Done(LockFileRaised, Some(job)))
  {
  }

  lemma BeforeRaising(cfg: Config, pc: Pc, e: Event, job: Job)
    requires Step(cfg, pc, e) == Some(Done(LockFileRaised, Some(job)))
    ensures pc == Committing(job)
  {
  }

  /** A rollback that gets as far as the rewrite was verified and approved. */
  lemma RaisedWasChecked(cfg: Config, call: Call, w0: World, es: seq<Event>, job: Job)
    requires RunOf(cfg, call, w0, es, Done(LockFileRaised, Some(job))) && call.request.action == Rollback
    ensures CanVerify(cfg, job.target) && PolicyMet(call)
  {
    OutcomeDeterminesWorld(cfg, call, w0, es, LockFileRaised, Some(job));
    hide Step;
    var n := |es| - 1;
    BeforeRaising(cfg, Steps(cfg, Reading(call), es[..n]).value, es[n], job);
    RunHasPassed(cfg, call, es[..n], Committing(job));
    hide Steps;
    EachStageWasApproved(cfg, job, es[..n]);
    RecreatedMeansVerified(cfg, job, es[..n]);
  }

  /** The containers move before the lock is found to be unwritable. */
  lemma RefusedAfterMoving(cfg: Config, call: Call, text: string, st: LockState)
    requires cfg.format == LOCK_TEXT && call.request.action == Rollback && Lockfile.Read(text) == Ok(st)
    requires st.previous.Some? && CanVerify(cfg, st.previous.value) && PolicyMet(call) && !st.Renderable()
    ensures !RefusedIsHarmless(cfg, call, text)
  {
    Lockfile.ReadIsClean(text);
    var w0 := World(Running(None, None, None), "", text);
    var job := Job(call, st, st.previous.value, st.previous.value.ExpectedVersion(), None, None, None);
    Lockfile.RendersIffSafe(NewState(job), Header(job));
    var yes: bool :| (yes ==> call.prompt) && Consents(call, yes);
    var es := UnwritableRun(cfg, call, w0, job, yes);
    OutcomeDeterminesWorld(cfg, call, w0, es, LockFileRaised, Some(job));
    assert PollWord(LockFileRaised) == Refused;
    assert DoAll(w0, es) != w0;
  }

  /** After a rollback, "refused" means nothing changed exactly when something
      stops the run before it acts (no way back, images that cannot be verified,
      a policy that is not met) or the lock's own values can be written back. */
  lemma RefusedRollbackIsHarmlessIff(cfg: Config, call: Call, text: string, st: LockState)
    requires cfg.format == LOCK_TEXT && call.request.action == Rollback && Lockfile.Read(text) == Ok(st)
    ensures RefusedIsHarmless(cfg, call, text) <==>
            st.previous.None? || !CanVerify(cfg, st.previous.value) || !PolicyMet(call) || st.Renderable()
  {
    if st.previous.None? || !CanVerify(cfg, st.previous.value) || !PolicyMet(call) || st.Renderable() {
      Lockfile.ReadIsClean(text);
      forall w0: World, es, outcome, about |
        w0.lock == text && RunOf(cfg, call, w0, es, Done(outcome, about)) && PollWord(outcome) == Refused
        ensures DoAll(w0, es) == w0
      {
        OutcomeDeterminesWorld(cfg, call, w0, es, outcome, about);
        if outcome == LockFileRaised && about.Some? {
          RaisedWasChecked(cfg, call, w0, es, about.value);
          Lockfile.RendersIffSafe(NewState(about.value), Header(about.value));
        }
      }
    } else {
      RefusedAfterMoving(cfg, call, text, st);
    }
  }
}
